/** The federated query: fan-out over vaults, merge, cut, and the next cursor. */
module Federation {
  import opened Sequences
  import opened Domain
  import opened LocalVaults
  import opened Pagination
  import opened CursorChains
  import opened ChainOrder
  import opened ChainTombstones

  const MAX_CURSOR_OFFSET := 500

  datatype CursorPayload = CursorPayload(order: Order, scopes: seq<ScopeID>, offsets: map<ScopeID, int>)

  /** The cursor of a request after decoding. */
  datatype CursorInput = NoCursor | Undecodable | Presented(payload: CursorPayload)

  datatype QueryRequest = QueryRequest(
    matches: NoteSummary -> bool, requested: seq<ScopeID>, allowedScopes: Option<seq<ScopeID>>,
    order: Order, limit: int, offset: int, cursor: CursorInput)

  /** SliceBounds stands for the run-time failure of cutting a slice at a negative limit. */
  datatype QueryError = AllowedScopesNil | InvalidCursor | Unavailable | SliceBounds

  datatype QueryResult = QueryResult(
    notes: seq<NoteSummary>, total: int, hasMore: bool, perScope: map<ScopeID, nat>,
    attempted: seq<ScopeID>, succeeded: seq<ScopeID>, failedScopes: seq<ScopeID>,
    nextCursor: Option<CursorPayload>)

  // ----- Which scopes, from which offsets -----

  /** Allowed and registered, cut to the requested scopes when any are named. */
  function EffectiveScopes(registered: set<ScopeID>, allowed: seq<ScopeID>, requested: seq<ScopeID>): seq<ScopeID> {
    var out := Filter(allowed, MemberOf(registered));
    if requested == [] then out else Filter(out, MemberOf(ToSet(requested)))
  }

  datatype Resolved = Resolved(scopes: seq<ScopeID>, offsets: map<ScopeID, int>)

  function Resolve(q: QueryRequest, allowed: seq<ScopeID>, registered: set<ScopeID>): Result<Resolved, QueryError> {
    match q.cursor
    case Undecodable => Err(InvalidCursor)
    case Presented(p) => Ok(Resolved(Sticky(p.scopes, ToSet(allowed)), p.offsets))
    case NoCursor =>
      if q.offset > MAX_CURSOR_OFFSET then Err(InvalidCursor)
      else
        var scopes := EffectiveScopes(registered, allowed, q.requested);
        Ok(Resolved(scopes, map sc | sc in scopes :: q.offset))
  }

  /** What a request resolves to, said of the request alone. A cursor that cannot be decoded and a
      fresh offset above 500 are refused. A presented cursor keeps those of its scopes that are
      allowed now, in its order, each at its offset. A fresh request takes the allowed scopes that
      are registered and, when any are named, requested, in the allowed order, each at its offset. */
  ghost predicate Resolves(q: QueryRequest, allowed: seq<ScopeID>, registered: set<ScopeID>,
                           r: Result<Resolved, QueryError>)
  {
    match q.cursor
    case Undecodable => r == Err(InvalidCursor)
    case Presented(p) =>
      r.Ok? && StruckTo(p.scopes, (set sc | sc in allowed), r.value.scopes) && r.value.offsets == p.offsets
    case NoCursor =>
      if q.offset > 500 then r == Err(InvalidCursor)
      else
        && r.Ok?
        && StruckTo(allowed, (set sc | sc in registered && (q.requested == [] || sc in q.requested)), r.value.scopes)
        && forall sc :: sc in r.value.scopes ==> sc in r.value.offsets && r.value.offsets[sc] == q.offset
  }

  lemma EffectiveMeans(registered: set<ScopeID>, allowed: seq<ScopeID>, requested: seq<ScopeID>)
    ensures StruckTo(allowed, (set sc | sc in registered && (requested == [] || sc in requested)),
                     EffectiveScopes(registered, allowed, requested))
  {
    var keep := set sc | sc in registered && (requested == [] || sc in requested);
    if requested == [] {
      FilterStrikes(allowed, MemberOf(registered), keep);
    } else {
      FilterBoth(allowed, MemberOf(registered), MemberOf(ToSet(requested)), MemberOf(keep));
      FilterStrikes(allowed, MemberOf(keep), keep);
    }
  }

  lemma ResolveMeans(q: QueryRequest, allowed: seq<ScopeID>, registered: set<ScopeID>)
    ensures Resolves(q, allowed, registered, Resolve(q, allowed, registered))
  {
    match q.cursor {
      case Undecodable =>
      case Presented(p) => FilterStrikes(p.scopes, MemberOf(ToSet(allowed)), (set sc | sc in allowed));
      case NoCursor => EffectiveMeans(registered, allowed, q.requested);
    }
  }

  /** Whatever a request resolves to lies within what is allowed. */
  lemma ResolvesWithin(q: QueryRequest, allowed: seq<ScopeID>, registered: set<ScopeID>, r: Resolved)
    requires Resolves(q, allowed, registered, Ok(r))
    ensures forall sc :: sc in r.scopes ==> sc in allowed
  {
    if q.cursor.Presented? {
      var keep := set sc | sc in allowed;
      var at: seq<nat> :| PickedAt(q.cursor.payload.scopes, keep, r.scopes, at);
    } else {
      var keep := set sc | sc in registered && (q.requested == [] || sc in q.requested);
      var at: seq<nat> :| PickedAt(allowed, keep, r.scopes, at);
    }
  }

  /** A fresh request with distinct allowed scopes resolves to distinct registered scopes,
      all at the request's offset. */
  lemma FreshResolves(q: QueryRequest, allowed: seq<ScopeID>, registered: set<ScopeID>)
    requires q.cursor.NoCursor? && q.offset <= MAX_CURSOR_OFFSET && NoDuplicates(allowed)
    ensures var r := Resolve(q, allowed, registered);
      && r.Ok? && NoDuplicates(r.value.scopes)
      && (forall sc :: sc in r.value.scopes <==>
            sc in allowed && sc in registered && (q.requested == [] || sc in q.requested))
      && (forall sc :: sc in r.value.scopes ==> OffsetAt(r.value.offsets, sc) == q.offset)
  {
    var out := Filter(allowed, MemberOf(registered));
    FilterNoDuplicates(allowed, MemberOf(registered));
    FilterMembers(allowed, MemberOf(registered));
    FilterNoDuplicates(out, MemberOf(ToSet(q.requested)));
    FilterMembers(out, MemberOf(ToSet(q.requested)));
  }

  /** Presenting the cursor of an answered call continues its chain, whatever is allowed
      and registered by then. */
  lemma PresentedFollows(v: Visit, q: QueryRequest, allowed: seq<ScopeID>, registered: set<ScopeID>, next: Visit)
    requires v.page.hasMore
    requires q.cursor.Presented? && q.cursor.payload.scopes == v.call.scopes
    requires q.cursor.payload.offsets == v.page.offsets
    requires Resolve(q, allowed, registered) == Ok(Resolved(next.call.scopes, next.call.offsets))
    ensures Follows(v, next)
  {
  }

  class FederationService {
    var vaults: map<ScopeID, LocalVault>
    var tombstones: set<NoteRef>

    constructor (vaults: map<ScopeID, LocalVault>)
      requires forall sc :: sc in vaults ==> vaults[sc].Valid() && vaults[sc].scope == sc
      ensures Valid() && this.vaults == vaults && tombstones == {}
    {
      this.vaults := vaults;
      this.tombstones := {};
    }

    ghost predicate Valid()
      reads this, vaults.Values, set v | v in vaults.Values :: v.cache
    {
      forall sc :: sc in vaults ==> vaults[sc].Valid() && vaults[sc].scope == sc
    }

    /** w holds the listings that this service's vaults have for q. */
    ghost predicate IsWorld(q: QueryRequest, w: World)
      reads this, vaults.Values, set v | v in vaults.Values :: v.cache
    {
      && w.tombstones == tombstones
      && w.leq == LeqFunction(q.order)
      && w.lists.Keys == vaults.Keys
      && forall sc :: sc in vaults ==> IsListing(vaults[sc].cache.notes, q.order, q.matches, w.lists[sc])
    }

    lemma WorldValid(q: QueryRequest, w: World)
      requires Valid() && IsWorld(q, w)
      ensures Pagination.Valid(w)
    {
      LeqIsPathOrder(q.order);
      forall sc, i | sc in w.lists && 0 <= i < |w.lists[sc]| ensures w.lists[sc][i].ref.scope == sc {
        assert w.lists[sc][i] in vaults[sc].cache.notes.Values;
      }
    }

    method ComputeEffectiveScopes(allowed: seq<ScopeID>, requested: seq<ScopeID>) returns (r: seq<ScopeID>)
      ensures r == EffectiveScopes(vaults.Keys, allowed, requested)
      ensures StruckTo(allowed, (set sc | sc in vaults && (requested == [] || sc in requested)), r)
    {
      EffectiveMeans(vaults.Keys, allowed, requested);
      r := KeepScopes(allowed, vaults.Keys);
      if requested != [] {
        var req := {};
        for i := 0 to |requested|
          invariant req == ToSet(requested[..i])
        {
          req := req + {requested[i]};
        }
        assert requested[..|requested|] == requested;
        r := KeepScopes(r, req);
      }
    }

    /** A fresh request starts every scope at its own offset. */
    method StartOffsets(scopes: seq<ScopeID>, offset: int) returns (offsets: map<ScopeID, int>)
      ensures offsets == map sc | sc in scopes :: offset
    {
      offsets := map[];
      for i := 0 to |scopes|
        invariant offsets == map sc | sc in scopes[..i] :: offset
      {
        assert scopes[..i + 1] == scopes[..i] + [scopes[i]];
        offsets := offsets[scopes[i] := offset];
      }
      assert scopes[..|scopes|] == scopes;
    }

    method ResolveScopesAndOffsets(q: QueryRequest, allowed: seq<ScopeID>) returns (r: Result<Resolved, QueryError>)
      ensures r == Resolve(q, allowed, vaults.Keys) && Resolves(q, allowed, vaults.Keys, r)
    {
      ResolveMeans(q, allowed, vaults.Keys);
      match q.cursor {
        case Undecodable =>
          r := Err(InvalidCursor);
        case Presented(p) =>
          var scopes := KeepScopes(p.scopes, ToSet(allowed));
          r := Ok(Resolved(scopes, p.offsets));
        case NoCursor =>
          if q.offset > MAX_CURSOR_OFFSET {
            return Err(InvalidCursor);
          }
          var scopes := ComputeEffectiveScopes(allowed, q.requested);
          var offsets := StartOffsets(scopes, q.offset);
          r := Ok(Resolved(scopes, offsets));
      }
    }

    function Attempted(arrival: seq<ScopeID>): seq<ScopeID>
      reads this
    {
      Filter(arrival, MemberOf(vaults.Keys))
    }

    function FailedIn(arrival: seq<ScopeID>, failing: set<ScopeID>): seq<ScopeID>
      reads this
    {
      Filter(Attempted(arrival), MemberOf(failing))
    }

    function SucceededIn(arrival: seq<ScopeID>, failing: set<ScopeID>): seq<ScopeID>
      reads this
    {
      Filter(Attempted(arrival), MemberOf(vaults.Keys - failing))
    }

    lemma OneArrives(arrived: seq<ScopeID>, sc: ScopeID, failing: set<ScopeID>)
      ensures Attempted(arrived + [sc]) == Attempted(arrived) + (if sc in vaults then [sc] else [])
      ensures FailedIn(arrived + [sc], failing)
           == FailedIn(arrived, failing) + (if sc in vaults && sc in failing then [sc] else [])
      ensures SucceededIn(arrived + [sc], failing)
           == SucceededIn(arrived, failing) + (if sc in vaults && sc !in failing then [sc] else [])
    {
      FilterAppend(arrived, [sc], MemberOf(vaults.Keys));
      if sc in vaults {
        FilterAppend(Attempted(arrived), [sc], MemberOf(failing));
        FilterAppend(Attempted(arrived), [sc], MemberOf(vaults.Keys - failing));
      } else {
        assert Attempted(arrived + [sc]) == Attempted(arrived);
      }
    }

    /** The order in which the scopes' answers arrive is not determined. */
    method ArrivalOrder(scopes: seq<ScopeID>) returns (arrival: seq<ScopeID>)
      ensures multiset(arrival) == multiset(scopes)
    {
      arrival := [];
      var pending := multiset(scopes);
      while |pending| > 0
        invariant multiset(arrival) + pending == multiset(scopes)
        decreases |pending|
      {
        var sc :| sc in pending;
        pending := pending - multiset{sc};
        arrival := arrival + [sc];
      }
    }

    /** Takes the answers as they arrive and appends what is not tombstoned. failing says
        whose vaults return an error. */
    method FanOut(q: QueryRequest, scopes: seq<ScopeID>, offsets: map<ScopeID, int>, failing: set<ScopeID>,
                  ghost w: World)
      returns (all: seq<NoteSummary>, attempted: seq<ScopeID>, succeeded: seq<ScopeID>, failedScopes: seq<ScopeID>,
               ghost arrival: seq<ScopeID>)
      requires Valid() && IsWorld(q, w) && q.limit >= 0
      ensures multiset(arrival) == multiset(scopes)
      ensures all == Gather(w, Call(scopes, offsets, q.limit, failing), arrival)
      ensures attempted == Attempted(arrival)
      ensures failedScopes == FailedIn(arrival, failing)
      ensures succeeded == SucceededIn(arrival, failing)
    {
      ghost var c := Call(scopes, offsets, q.limit, failing);
      all, attempted, succeeded, failedScopes := [], [], [], [];
      var order := ArrivalOrder(scopes);
      arrival := [];
      for i := 0 to |order|
        invariant arrival == order[..i]
        invariant all == Gather(w, c, arrival)
        invariant attempted == Attempted(arrival) && failedScopes == FailedIn(arrival, failing)
        invariant succeeded == SucceededIn(arrival, failing)
      {
        var sc := order[i];
        OneArrives(arrival, sc, failing);
        if sc in vaults {
          attempted := attempted + [sc];
          if sc in failing {
            failedScopes := failedScopes + [sc];
          } else {
            succeeded := succeeded + [sc];
          }
        }
        var kept := FetchLive(q, sc, OffsetAt(offsets, sc), failing, w, c, arrival);
        all := all + kept;
        arrival := arrival + [sc];
      }
      assert arrival == order;
    }

    /** What one scope contributes: nothing if no vault serves it or its vault fails. */
    method FetchLive(q: QueryRequest, sc: ScopeID, offset: int, failing: set<ScopeID>, ghost w: World, ghost c: Call,
                     ghost arrived: seq<ScopeID>)
      returns (kept: seq<NoteSummary>)
      requires Valid() && IsWorld(q, w) && c.limit == q.limit && c.failed == failing
      requires offset == OffsetAt(c.offsets, sc)
      ensures Gather(w, c, arrived + [sc]) == Gather(w, c, arrived) + kept
    {
      if sc !in vaults || sc in failing {
        NothingGathered(w, c, arrived, sc);
        return [];
      }
      var notes := Fetch(q, sc, offset, w);
      kept := Live(notes);
      AnswerGathered(w, c, arrived, sc, notes, kept);
    }

    /** One vault's answer: a window of the listing that w has for it. */
    method Fetch(q: QueryRequest, sc: ScopeID, offset: int, ghost w: World) returns (notes: seq<NoteSummary>)
      requires Valid() && IsWorld(q, w) && sc in vaults
      ensures notes == Window(w.lists[sc], q.limit + 1, offset)
    {
      var page, listing := vaults[sc].Query(q.order, q.matches, q.limit + 1, offset);
      ListingUnique(vaults[sc].cache.notes, q.order, q.matches, listing, w.lists[sc]);
      notes := page.notes;
    }

    method Live(notes: seq<NoteSummary>) returns (kept: seq<NoteSummary>)
      ensures kept == Filter(notes, NotIn(tombstones))
    {
      kept := [];
      for i := 0 to |notes|
        invariant kept == Filter(notes[..i], NotIn(tombstones))
      {
        assert notes[..i + 1] == notes[..i] + [notes[i]];
        FilterAppend(notes[..i], [notes[i]], NotIn(tombstones));
        if notes[i].ref !in tombstones {
          kept := kept + [notes[i]];
        }
      }
      assert notes[..|notes|] == notes;
    }

    /** One federated query. Its paging part is a page of the call it resolves to, so every
        statement about pages and chains of pages holds of it. */
    method Query(q: QueryRequest, failing: set<ScopeID>, ghost w: World)
      returns (res: Result<QueryResult, QueryError>, ghost arrival: seq<ScopeID>, ghost all: seq<NoteSummary>,
               ghost page: Page)
      requires Valid() && IsWorld(q, w)
      ensures q.allowedScopes.None? ==> res == Err(AllowedScopesNil)
      ensures q.allowedScopes.Some? ==>
                AnsweredAs(q, vaults.Keys, w, failing, Resolve(q, q.allowedScopes.value, vaults.Keys), res, arrival,
                           all, page)
      ensures res.Ok? ==> StaysAllowed(res.value, q.allowedScopes.value) && InListingOrder(q.order, res.value.notes)
    {
      arrival, all, page := [], [], Page([], false, map[]);
      if q.allowedScopes.None? {
        return Err(AllowedScopesNil), arrival, all, page;
      }
      var resolved := ResolveScopesAndOffsets(q, q.allowedScopes.value);
      if resolved.Err? {
        return Err(resolved.error), arrival, all, page;
      }
      var scopes, offsets := resolved.value.scopes, resolved.value.offsets;
      if q.limit < 0 {
        var up := AnySucceeds(scopes, failing);
        return Err(if up then SliceBounds else Unavailable), arrival, all, page;
      }
      var gathered, attempted, succeeded, failedScopes;
      gathered, attempted, succeeded, failedScopes, arrival := FanOut(q, scopes, offsets, failing, w);
      SucceededIff(scopes, failing, arrival);
      if |succeeded| == 0 {
        return Err(Unavailable), arrival, all, page;
      }
      var answer;
      answer, all, page := MergeAndCut(q, resolved.value, failing, gathered, attempted, succeeded, failedScopes,
                                       arrival, w);
      res := Ok(answer);
    }

    /** Sorts what was gathered, cuts it at the limit, and counts and moves the offsets by what is
        on the page. */
    method MergeAndCut(q: QueryRequest, r: Resolved, failing: set<ScopeID>, gathered: seq<NoteSummary>,
                       attempted: seq<ScopeID>, succeeded: seq<ScopeID>, failedScopes: seq<ScopeID>,
                       ghost arrival: seq<ScopeID>, ghost w: World)
      returns (res: QueryResult, ghost all: seq<NoteSummary>, ghost page: Page)
      requires Valid() && IsWorld(q, w) && q.allowedScopes.Some? && q.limit >= 0
      requires Resolves(q, q.allowedScopes.value, vaults.Keys, Ok(r)) && multiset(arrival) == multiset(r.scopes)
      requires gathered == Gather(w, Call(r.scopes, r.offsets, q.limit, failing), arrival)
      requires attempted == Attempted(arrival) && failedScopes == FailedIn(arrival, failing)
      requires succeeded == SucceededIn(arrival, failing)
      ensures PagedAs(q, vaults.Keys, w, failing, r, res, arrival, all, page)
      ensures StaysAllowed(res, q.allowedScopes.value) && InListingOrder(q.order, res.notes)
    {
      var merged := SortSummaries(gathered, q.order);
      all := merged;
      var hasMore := false;
      var notes := merged;
      if |notes| > q.limit {
        notes := notes[..q.limit];
        hasMore := true;
      }
      var perScope, total := CountPerScope(notes);
      var newOffsets := AdvanceOffsets(r.scopes, r.offsets, notes, perScope);
      page := Page(notes, hasMore, newOffsets);
      var next := if hasMore then Some(CursorPayload(q.order, r.scopes, newOffsets)) else None;
      res := QueryResult(notes, total, hasMore, perScope, attempted, succeeded, failedScopes, next);
      AnswerMeans(q, r, w, failing, arrival, gathered, merged, res);
      CutIsPage(w, Call(r.scopes, r.offsets, q.limit, failing), arrival, gathered, merged, page);
    }

    /** What an answer shows, from how it was put together. */
    lemma AnswerMeans(q: QueryRequest, r: Resolved, w: World, failing: set<ScopeID>, arrival: seq<ScopeID>,
                      gathered: seq<NoteSummary>, merged: seq<NoteSummary>, res: QueryResult)
      requires Valid() && IsWorld(q, w) && q.allowedScopes.Some? && q.limit >= 0
      requires Resolves(q, q.allowedScopes.value, vaults.Keys, Ok(r)) && multiset(arrival) == multiset(r.scopes)
      requires gathered == Gather(w, Call(r.scopes, r.offsets, q.limit, failing), arrival)
      requires multiset(merged) == multiset(gathered) && InListingOrder(q.order, merged) && IsPrefix(res.notes, merged)
      requires res.attempted == Attempted(arrival) && res.failedScopes == FailedIn(arrival, failing)
      requires res.succeeded == SucceededIn(arrival, failing)
      requires res.nextCursor.Some? ==> res.nextCursor.value.scopes == r.scopes
      ensures StaysAllowed(res, q.allowedScopes.value) && InListingOrder(q.order, res.notes)
      ensures ReportsScopes(res, arrival, vaults.Keys, failing)
    {
      AnswerReports(arrival, failing);
      WorldValid(q, w);
      FrontGathered(gathered, merged, res.notes);
      ReportedArrived(arrival, failing);
      AnswerStaysAllowed(q, r, w, failing, arrival, gathered, res, vaults.Keys);
    }

    lemma ReportedArrived(arrival: seq<ScopeID>, failing: set<ScopeID>)
      ensures forall sc :: sc in Attempted(arrival) ==> sc in arrival
      ensures forall sc :: sc in FailedIn(arrival, failing) || sc in SucceededIn(arrival, failing) ==> sc in arrival
    {
      FilterMembers(arrival, MemberOf(vaults.Keys));
      FilterMembers(Attempted(arrival), MemberOf(failing));
      FilterMembers(Attempted(arrival), MemberOf(vaults.Keys - failing));
    }

    lemma AnswerReports(arrival: seq<ScopeID>, failing: set<ScopeID>)
      ensures StruckTo(arrival, vaults.Keys, Attempted(arrival))
      ensures StruckTo(Attempted(arrival), failing, FailedIn(arrival, failing))
      ensures StruckTo(Attempted(arrival), vaults.Keys - failing, SucceededIn(arrival, failing))
    {
      FilterStrikes(arrival, MemberOf(vaults.Keys), vaults.Keys);
      FilterStrikes(Attempted(arrival), MemberOf(failing), failing);
      FilterStrikes(Attempted(arrival), MemberOf(vaults.Keys - failing), vaults.Keys - failing);
    }

    /** A query in which nothing fails, as the visit of a chain. */
    method Ask(q: QueryRequest, scopes: seq<ScopeID>, offsets: map<ScopeID, int>, ghost w: World)
      returns (res: QueryResult, ghost v: Visit)
      requires Valid() && IsWorld(q, w) && q.allowedScopes.Some? && q.limit >= 0
      requires Resolve(q, q.allowedScopes.value, vaults.Keys) == Ok(Resolved(scopes, offsets))
      requires scopes != [] && forall i :: 0 <= i < |scopes| ==> scopes[i] in vaults
      ensures Answered(w, v) && v.call == Call(scopes, offsets, q.limit, {}) && Reports(res, v)
    {
      assert scopes[0] in scopes && scopes[0] in vaults;
      var r; ghost var arrival, all, page;
      r, arrival, all, page := Query(q, {}, w);
      res := r.value;
      v := Visit(Call(scopes, offsets, q.limit, {}), arrival, all, page);
    }

    method Start(q: QueryRequest, scopes: seq<ScopeID>, ghost w: World) returns (res: QueryResult, ghost vs: seq<Visit>)
      requires Valid() && IsWorld(q, w) && Startable(q) && scopes != []
      requires scopes == EffectiveScopes(vaults.Keys, q.allowedScopes.value, q.requested)
      ensures Following(w, scopes, vs, res.notes, res)
    {
      FreshResolves(q, q.allowedScopes.value, vaults.Keys);
      var offsets: map<ScopeID, int> := map sc | sc in scopes :: q.offset;
      ghost var v;
      res, v := Ask(q, scopes, offsets, w);
      vs := [v];
      FollowingStarts(w, scopes, v, res);
    }

    method Continue(q: QueryRequest, scopes: seq<ScopeID>, ghost w: World, ghost vs: seq<Visit>,
                    ghost notes: seq<NoteSummary>,
                    last: QueryResult)
      returns (res: QueryResult, ghost more: seq<Visit>)
      requires Valid() && IsWorld(q, w) && Startable(q) && scopes != []
      requires forall i :: 0 <= i < |scopes| ==> scopes[i] in vaults && scopes[i] in q.allowedScopes.value
      requires Following(w, scopes, vs, notes, last) && last.hasMore
      ensures |more| == |vs| + 1 && Following(w, scopes, more, notes + res.notes, res)
    {
      KeptScopes(scopes, q.allowedScopes.value);
      ghost var v;
      res, v := Ask(q.(cursor := Presented(last.nextCursor.value)), scopes, last.nextCursor.value.offsets, w);
      more := vs + [v];
      FollowingExtends(w, scopes, vs, notes, last, v, res);
    }

    /** A client that follows the cursors of a request to the end gets the live notes of all its
        scopes, each once and in order, if the tombstoned ones come last in their listings. */
    method FollowCursors(q: QueryRequest, ghost w: World) returns (notes: seq<NoteSummary>)
      requires Valid() && IsWorld(q, w) && Startable(q)
      requires EffectiveScopes(vaults.Keys, q.allowedScopes.value, q.requested) != []
      requires AllLastIn(w, EffectiveScopes(vaults.Keys, q.allowedScopes.value, q.requested))
      ensures SortedBy(LeqFunction(q.order), notes) && InListingOrder(q.order, notes)
      ensures multiset(notes)
        == multiset(Union(Living(w), EffectiveScopes(vaults.Keys, q.allowedScopes.value, q.requested)))
    {
      WorldValid(q, w);
      var scopes := EffectiveScopes(vaults.Keys, q.allowedScopes.value, q.requested);
      ScopesServed(q, vaults.Keys);
      var res; ghost var vs;
      res, vs := Start(q, scopes, w);
      notes := res.notes;
      while res.hasMore
        invariant Following(w, scopes, vs, notes, res)
        decreases |Union(w, scopes)| + 1 - |vs|
      {
        ghost var more;
        res, more := Continue(q, scopes, w, vs, notes, res);
        FollowingBounded(w, scopes, more, notes + res.notes, res);
        vs, notes := more, notes + res.notes;
      }
      FollowingEnds(w, scopes, vs, notes, res);
      SortedMeans(q.order, notes);
    }

    method AnySucceeds(scopes: seq<ScopeID>, failing: set<ScopeID>) returns (up: bool)
      ensures up <==> exists sc :: sc in scopes && sc in vaults && sc !in failing
    {
      up := exists sc :: sc in scopes && sc in vaults && sc !in failing;
    }

    lemma SucceededIff(scopes: seq<ScopeID>, failing: set<ScopeID>, arrival: seq<ScopeID>)
      requires multiset(arrival) == multiset(scopes)
      ensures SucceededIn(arrival, failing) == []
        <==> forall sc :: sc in scopes ==> sc !in vaults || sc in failing
    {
      var attempted := Filter(arrival, MemberOf(vaults.Keys));
      var succeeded := Filter(attempted, MemberOf(vaults.Keys - failing));
      FilterMembers(arrival, MemberOf(vaults.Keys));
      FilterMembers(attempted, MemberOf(vaults.Keys - failing));
      forall sc ensures sc in scopes <==> sc in arrival {
        assert sc in scopes <==> sc in multiset(scopes);
        assert sc in arrival <==> sc in multiset(arrival);
      }
      if succeeded != [] { assert succeeded[0] in succeeded; }
    }
  }

  /** The request resolves to r, and the answer is r's error, a failure of every scope, or a page of
      r's call. */
  ghost predicate AnsweredAs(q: QueryRequest, registered: set<ScopeID>, w: World, failing: set<ScopeID>,
                             r: Result<Resolved, QueryError>, res: Result<QueryResult, QueryError>,
                             arrival: seq<ScopeID>, all: seq<NoteSummary>, page: Page)
    requires q.allowedScopes.Some?
  {
    && Resolves(q, q.allowedScopes.value, registered, r)
    && match r
       case Err(e) => res == Err(e)
       case Ok(r) =>
         if forall sc :: sc in r.scopes ==> sc !in registered || sc in failing then res == Err(Unavailable)
         else if q.limit < 0 then res == Err(SliceBounds)
         else res.Ok? && PagedAs(q, registered, w, failing, r, res.value, arrival, all, page)
  }

  /** The answer reports the page, a cursor if there is more, and how the scopes fared. */
  ghost predicate PagedAs(q: QueryRequest, registered: set<ScopeID>, w: World, failing: set<ScopeID>, r: Resolved,
                          res: QueryResult, arrival: seq<ScopeID>, all: seq<NoteSummary>, page: Page)
  {
    && q.limit >= 0 && IsPage(w, Call(r.scopes, r.offsets, q.limit, failing), arrival, all, page)
    && res.notes == page.notes && res.hasMore == page.hasMore && res.total == |page.notes|
    && res.nextCursor == (if page.hasMore then Some(CursorPayload(q.order, r.scopes, page.offsets)) else None)
    && ReportsScopes(res, arrival, registered, failing)
    && forall sc :: PerScopeAt(res.perScope, sc) == |Restrict(page.notes, sc)|
  }

  /** Nothing outside the allowed scopes shows in an answer. */
  ghost predicate StaysAllowed(res: QueryResult, allowed: seq<ScopeID>) {
    && (forall i :: 0 <= i < |res.notes| ==> res.notes[i].ref.scope in allowed)
    && (forall sc :: sc in res.attempted || sc in res.failedScopes || sc in res.succeeded ==> sc in allowed)
    && (res.nextCursor.Some? ==> forall sc :: sc in res.nextCursor.value.scopes ==> sc in allowed)
  }

  /** Attempted are the registered scopes, in the order in which they answered; of these the failing
      ones failed and the others succeeded. */
  ghost predicate ReportsScopes(res: QueryResult, arrival: seq<ScopeID>, registered: set<ScopeID>,
                                failing: set<ScopeID>) {
    && StruckTo(arrival, registered, res.attempted)
    && StruckTo(res.attempted, failing, res.failedScopes)
    && StruckTo(res.attempted, registered - failing, res.succeeded)
  }

  lemma CutIsPage(w: World, c: Call, arrival: seq<ScopeID>, gathered: seq<NoteSummary>, merged: seq<NoteSummary>,
                  page: Page)
    requires multiset(arrival) == multiset(c.scopes) && gathered == Gather(w, c, arrival)
    requires SortedBy(w.leq, merged) && multiset(merged) == multiset(gathered)
    requires page.hasMore == (|merged| > c.limit)
    requires page.notes == if page.hasMore then merged[..c.limit] else merged
    requires forall sc :: sc in page.offsets <==> sc in c.scopes
    requires forall sc :: sc in c.scopes ==> page.offsets[sc] == OffsetAt(c.offsets, sc) + |Restrict(page.notes, sc)|
    ensures IsPage(w, c, arrival, merged, page)
  {
  }

  lemma FrontGathered(gathered: seq<NoteSummary>, merged: seq<NoteSummary>, notes: seq<NoteSummary>)
    requires multiset(merged) == multiset(gathered) && IsPrefix(notes, merged)
    ensures forall n :: n in notes ==> n in gathered
  {
    forall n | n in notes ensures n in gathered { assert n in merged && n in multiset(merged); }
  }

  lemma AnswerStaysAllowed(q: QueryRequest, r: Resolved, w: World, failing: set<ScopeID>, arrival: seq<ScopeID>,
                           gathered: seq<NoteSummary>, res: QueryResult, registered: set<ScopeID>)
    requires q.allowedScopes.Some? && Resolves(q, q.allowedScopes.value, registered, Ok(r)) && q.limit >= 0
    requires Pagination.Valid(w) && multiset(arrival) == multiset(r.scopes)
    requires gathered == Gather(w, Call(r.scopes, r.offsets, q.limit, failing), arrival)
    requires forall n :: n in res.notes ==> n in gathered
    requires forall sc :: sc in res.attempted || sc in res.failedScopes || sc in res.succeeded ==> sc in arrival
    requires res.nextCursor.Some? ==> res.nextCursor.value.scopes == r.scopes
    ensures StaysAllowed(res, q.allowedScopes.value)
  {
    ResolvesWithin(q, q.allowedScopes.value, registered, r);
    forall sc | sc in arrival ensures sc in q.allowedScopes.value {
      assert sc in multiset(arrival) && sc in multiset(r.scopes);
    }
    forall i | 0 <= i < |res.notes| ensures res.notes[i].ref.scope in q.allowedScopes.value {
      assert res.notes[i] in gathered;
      GatheredFrom(w, Call(r.scopes, r.offsets, q.limit, failing), arrival, res.notes[i]);
    }
  }

  // ----- A client that follows cursors -----

  /** A fresh request from offset 0 for distinct scopes, with a limit that leaves room for the
      extra note. */
  ghost predicate Startable(q: QueryRequest) {
    && q.cursor.NoCursor? && q.offset == 0 && 1 <= q.limit <= MAX_LIMIT - 1
    && q.allowedScopes.Some? && NoDuplicates(q.allowedScopes.value)
  }

  /** The answer shows the page and carries its cursor. */
  ghost predicate Reports(res: QueryResult, v: Visit) {
    && res.notes == v.page.notes && (res.hasMore <==> v.page.hasMore)
    && (res.hasMore ==> res.nextCursor.Some? && res.nextCursor.value.scopes == v.call.scopes
                        && res.nextCursor.value.offsets == v.page.offsets)
  }

  /** notes is what the chain has delivered, and res its last answer. */
  ghost predicate Following(w: World, scopes: seq<ScopeID>, vs: seq<Visit>, notes: seq<NoteSummary>, res: QueryResult) {
    Chain(w, vs) && Smooth(w, vs) && vs[0].call.scopes == scopes && notes == Delivered(vs) && Reports(res, Last(vs))
  }

  lemma ScopesServed(q: QueryRequest, registered: set<ScopeID>)
    requires Startable(q)
    ensures forall i :: 0 <= i < |EffectiveScopes(registered, q.allowedScopes.value, q.requested)| ==>
              && EffectiveScopes(registered, q.allowedScopes.value, q.requested)[i] in registered
              && EffectiveScopes(registered, q.allowedScopes.value, q.requested)[i] in q.allowedScopes.value
  {
    FreshResolves(q, q.allowedScopes.value, registered);
    var scopes := EffectiveScopes(registered, q.allowedScopes.value, q.requested);
    forall i | 0 <= i < |scopes| ensures scopes[i] in registered && scopes[i] in q.allowedScopes.value {
      assert scopes[i] in scopes;
    }
  }

  lemma KeptScopes(scopes: seq<ScopeID>, allowed: seq<ScopeID>)
    requires forall i :: 0 <= i < |scopes| ==> scopes[i] in allowed
    ensures Sticky(scopes, ToSet(allowed)) == scopes
  {
    FilterAll(scopes, MemberOf(ToSet(allowed)));
  }

  lemma FollowingStarts(w: World, scopes: seq<ScopeID>, v: Visit, res: QueryResult)
    requires Answered(w, v) && Reports(res, v) && v.call.scopes == scopes && NoDuplicates(scopes)
    requires v.call.failed == {} && 1 <= v.call.limit <= MAX_LIMIT - 1
    requires forall sc :: sc in scopes ==> sc in w.lists && OffsetAt(v.call.offsets, sc) == 0
    ensures Following(w, scopes, [v], res.notes, res)
  {
    OneDelivered([v]);
  }

  lemma FollowingExtends(w: World, scopes: seq<ScopeID>, vs: seq<Visit>, notes: seq<NoteSummary>, last: QueryResult,
                         next: Visit, res: QueryResult)
    requires Following(w, scopes, vs, notes, last) && last.hasMore && Answered(w, next) && Reports(res, next)
    requires next.call.scopes == scopes && next.call.offsets == last.nextCursor.value.offsets
    requires next.call.failed == {} && 1 <= next.call.limit <= MAX_LIMIT - 1
    ensures Following(w, scopes, vs + [next], notes + res.notes, res)
  {
    assert Last(vs).call.scopes == scopes;
    NextFollows(Last(vs), next);
    ChainExtends(w, vs, next);
    assert (vs + [next])[..|vs|] == vs;
  }

  lemma FollowingBounded(w: World, scopes: seq<ScopeID>, vs: seq<Visit>, notes: seq<NoteSummary>, res: QueryResult)
    requires Pagination.Valid(w) && Following(w, scopes, vs, notes, res)
    ensures |vs| <= |Union(w, scopes)| + 1
  {
    ChainsEnd(w, vs);
  }

  lemma FollowingEnds(w: World, scopes: seq<ScopeID>, vs: seq<Visit>, notes: seq<NoteSummary>, res: QueryResult)
    requires Pagination.Valid(w) && AllLastIn(w, scopes) && Following(w, scopes, vs, notes, res) && !res.hasMore
    ensures SortedBy(w.leq, notes) && multiset(notes) == multiset(Union(Living(w), scopes))
  {
    FollowingCursorsDeliversLiving(w, vs);
  }

  lemma ChainExtends(w: World, vs: seq<Visit>, next: Visit)
    requires Chain(w, vs) && Smooth(w, vs) && Follows(Last(vs), next) && Answered(w, next)
    requires next.call.scopes == Last(vs).call.scopes && next.call.failed == {} && 1 <= next.call.limit <= MAX_LIMIT - 1
    ensures Chain(w, vs + [next]) && Smooth(w, vs + [next])
  {
    var more := vs + [next];
    assert more[0] == vs[0] && Last(more) == next;
    forall i | 0 < i < |more| ensures Follows(more[i - 1], more[i]) {
      if i < |vs| { assert Follows(vs[i - 1], vs[i]); }
    }
  }

  lemma OneDelivered(vs: seq<Visit>)
    requires |vs| == 1
    ensures Delivered(vs) == vs[0].page.notes
  {
    assert vs[..0] == [];
    assert Delivered(vs[..0]) + vs[0].page.notes == vs[0].page.notes;
  }

  method KeepScopes(s: seq<ScopeID>, keep: set<ScopeID>) returns (r: seq<ScopeID>)
    ensures r == Filter(s, MemberOf(keep))
  {
    r := [];
    for i := 0 to |s|
      invariant r == Filter(s[..i], MemberOf(keep))
    {
      assert s[..i + 1] == s[..i] + [s[i]];
      FilterAppend(s[..i], [s[i]], MemberOf(keep));
      if s[i] in keep {
        r := r + [s[i]];
      }
    }
    assert s[..|s|] == s;
  }

  function PerScopeAt(perScope: map<ScopeID, nat>, sc: ScopeID): nat {
    if sc in perScope then perScope[sc] else 0
  }

  /** Notes per scope on the page; their sum is the reported total. */
  method CountPerScope(notes: seq<NoteSummary>) returns (perScope: map<ScopeID, nat>, total: int)
    ensures forall sc :: PerScopeAt(perScope, sc) == |Restrict(notes, sc)|
    ensures total == |notes|
  {
    perScope := map[];
    for i := 0 to |notes|
      invariant forall sc :: PerScopeAt(perScope, sc) == |Restrict(notes[..i], sc)|
      invariant MapSum(perScope) == i
    {
      var sc := notes[i].ref.scope;
      assert notes[..i + 1] == notes[..i] + [notes[i]];
      MapSumUpdate(perScope, sc, PerScopeAt(perScope, sc) + 1);
      ghost var before := perScope;
      perScope := perScope[sc := PerScopeAt(perScope, sc) + 1];
      forall s ensures PerScopeAt(perScope, s) == |Restrict(notes[..i + 1], s)| {
        FilterAppend(notes[..i], [notes[i]], InScope(s));
        assert PerScopeAt(before, s) == |Restrict(notes[..i], s)|;
      }
    }
    assert notes[..|notes|] == notes;
    total := 0;
    var rest := perScope;
    while rest != map[]
      invariant total + MapSum(rest) == |notes|
      decreases |rest|
    {
      var sc :| sc in rest;
      MapSumRemove(rest, sc);
      total := total + rest[sc];
      rest := rest - {sc};
    }
  }

  /** Each scope's offset moves past the notes of it that are on the page. */
  method AdvanceOffsets(scopes: seq<ScopeID>, offsets: map<ScopeID, int>, notes: seq<NoteSummary>,
                        perScope: map<ScopeID, nat>)
    returns (r: map<ScopeID, int>)
    requires forall sc :: PerScopeAt(perScope, sc) == |Restrict(notes, sc)|
    ensures forall sc :: sc in r <==> sc in scopes
    ensures forall sc :: sc in scopes ==> r[sc] == OffsetAt(offsets, sc) + |Restrict(notes, sc)|
  {
    r := map[];
    for i := 0 to |scopes|
      invariant forall sc :: sc in r <==> sc in scopes[..i]
      invariant forall sc :: sc in r ==> r[sc] == OffsetAt(offsets, sc) + |Restrict(notes, sc)|
    {
      var sc := scopes[i];
      r := r[sc := OffsetAt(offsets, sc) + PerScopeAt(perScope, sc)];
    }
  }
}
