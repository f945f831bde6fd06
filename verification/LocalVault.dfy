/** One vault's paginated query over its note cache. */
module LocalVaults {
  import opened Sequences
  import opened Domain
  import opened NoteCaches

  const DEFAULT_LIMIT := 20
  const MAX_LIMIT := 100

  /** How many notes a vault returns for a requested limit. */
  function ClampLimit(limit: int): (n: int)
    ensures 1 <= n <= MAX_LIMIT
    ensures 1 <= limit <= MAX_LIMIT ==> n == limit
  {
    if limit <= 0 then DEFAULT_LIMIT else if limit > MAX_LIMIT then MAX_LIMIT else limit
  }

  /** The default is 20 notes, the most 100. */
  lemma ClampLimitValues(limit: int)
    ensures limit <= 0 ==> ClampLimit(limit) == 20
    ensures 0 < limit <= 100 ==> ClampLimit(limit) == limit
    ensures 100 < limit ==> ClampLimit(limit) == 100
  {
  }

  function ClampOffset(offset: int): (n: nat) {
    Max(offset, 0)
  }

  /** The part of a listing that one query returns. */
  function Window(listing: seq<NoteSummary>, limit: int, offset: int): seq<NoteSummary> {
    var off := ClampOffset(offset);
    if off >= |listing| then [] else listing[off..Min(off + ClampLimit(limit), |listing|)]
  }

  /** The listing of a query: the matching cached notes in sorted order. */
  ghost predicate IsListing(notes: map<string, NoteSummary>, o: Order, matches: NoteSummary -> bool,
                            listing: seq<NoteSummary>)
  {
    && SortedBy(LeqFunction(o), listing)
    && DistinctPaths(listing)
    && forall n :: n in listing <==> n in notes.Values && matches(n)
  }

  /** Two runs of the same query agree, so offsets from one are meaningful in the next. */
  lemma ListingUnique(notes: map<string, NoteSummary>, o: Order, matches: NoteSummary -> bool,
                      a: seq<NoteSummary>, b: seq<NoteSummary>)
    requires IsListing(notes, o, matches, a) && IsListing(notes, o, matches, b)
    ensures a == b
  {
    DistinctPathsNoDuplicates(a);
    DistinctPathsNoDuplicates(b);
    SameMembers(a, b);
    LeqIsPathOrder(o);
    SortedListingUnique(LeqFunction(o), a, b);
  }

  datatype VaultPage = VaultPage(notes: seq<NoteSummary>, total: nat, hasMore: bool)

  class LocalVault {
    const scope: ScopeID
    const indexKey: string -> string
    const cache: NoteCache

    ghost predicate Valid()
      reads this, cache
    {
      && Keyed(cache.notes, indexKey)
      && forall k :: k in cache.notes ==> cache.notes[k].ref.scope == scope
    }

    constructor (scope: ScopeID, indexKey: string -> string)
      ensures Valid() && fresh(cache) && this.scope == scope && this.indexKey == indexKey
    {
      this.scope := scope;
      this.indexKey := indexKey;
      this.cache := new NoteCache();
    }

    method Query(o: Order, matches: NoteSummary -> bool, limit: int, offset: int)
      returns (page: VaultPage, ghost listing: seq<NoteSummary>)
      requires Valid()
      ensures IsListing(cache.notes, o, matches, listing) && InListingOrder(o, listing)
      ensures page.notes == Window(listing, limit, offset)
      ensures var first, most := Max(offset, 0), if limit <= 0 then 20 else Min(limit, 100);
        && |page.notes| == Max(0, Min(most, |listing| - first))
        && forall i :: 0 <= i < |page.notes| ==> page.notes[i] == listing[first + i]
      ensures page.total == |listing|
      ensures page.hasMore <==> ClampOffset(offset) + |page.notes| < |listing| && page.notes != []
    {
      var sorted := Listing(o, matches);
      listing := sorted;
      page := Page(sorted, limit, offset);
    }

    /** The window of a listing that a query returns. */
    method Page(sorted: seq<NoteSummary>, limit: int, offset: int) returns (page: VaultPage)
      ensures page.notes == Window(sorted, limit, offset)
      ensures var first, most := Max(offset, 0), if limit <= 0 then 20 else Min(limit, 100);
        && |page.notes| == Max(0, Min(most, |sorted| - first))
        && forall i :: 0 <= i < |page.notes| ==> page.notes[i] == sorted[first + i]
      ensures page.total == |sorted|
      ensures page.hasMore <==> ClampOffset(offset) + |page.notes| < |sorted| && page.notes != []
    {
      var total := |sorted|;
      var n := limit;
      if n <= 0 { n := DEFAULT_LIMIT; }
      if n > MAX_LIMIT { n := MAX_LIMIT; }
      var off := Max(offset, 0);
      if off >= total {
        page := VaultPage([], total, false);
      } else {
        var end := Min(off + n, total);
        page := VaultPage(sorted[off..end], total, end < total);
      }
    }

    /** The matching cached notes, sorted. */
    method Listing(o: Order, matches: NoteSummary -> bool) returns (sorted: seq<NoteSummary>)
      requires Valid()
      ensures IsListing(cache.notes, o, matches, sorted) && InListingOrder(o, sorted)
    {
      var all, keys := cache.All();
      var filtered := ApplyFilter(all, matches);
      sorted := SortSummaries(filtered, o);
      assert DistinctPaths(all);
      FilterDistinctPaths(all, matches);
      SortedKeepsDistinctPaths(filtered, sorted);
      FilterMembers(all, matches);
      forall n ensures n in sorted <==> n in cache.notes.Values && matches(n) {
        assert n in sorted <==> n in multiset(sorted);
        assert n in filtered <==> n in multiset(filtered);
        if n in cache.notes.Values {
          var k :| k in cache.notes && cache.notes[k] == n;
          assert k in keys;
        }
      }
    }
  }

  lemma SortedKeepsDistinctPaths(a: seq<NoteSummary>, b: seq<NoteSummary>)
    requires DistinctPaths(a) && multiset(a) == multiset(b)
    ensures DistinctPaths(b)
  {
    DistinctPathsNoDuplicates(a);
    NoDuplicatesMultiset(a, b);
    forall i, j | 0 <= i < j < |b| ensures b[i].ref.path != b[j].ref.path {
      assert b[i] in multiset(a) && b[j] in multiset(a);
    }
  }
}
