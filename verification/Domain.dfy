/** Note summaries and the order in which queries list them. */
module Domain {
  import opened Sequences

  type ScopeID = string

  datatype NoteRef = NoteRef(scope: ScopeID, path: string)

  datatype Category = Projects | Areas | Resources | Archives | Unknown

  datatype NoteSummary = NoteSummary(
    ref: NoteRef, title: string, tags: seq<string>, status: string,
    area: string, project: string, category: Category, updatedAt: int)

  /** A sort request: a field name, where any unregistered name means the update
      time, and a direction. */
  datatype Order = Order(field: string, desc: bool)

  const SORT_BY_TITLE := "title"

  // ----- The comparator -----

  function CompareInts(a: int, b: int): int {
    if a < b then -1 else if a > b then 1 else 0
  }

  function CompareStrings(a: string, b: string): int {
    if a == [] && b == [] then 0
    else if a == [] then -1
    else if b == [] then 1
    else if a[0] != b[0] then (if a[0] < b[0] then -1 else 1)
    else CompareStrings(a[1..], b[1..])
  }

  lemma {:induction false} CompareStringsOrder(a: string, b: string)
    ensures CompareStrings(b, a) == -CompareStrings(a, b)
    ensures CompareStrings(a, b) == 0 <==> a == b
  {
    if a != [] && b != [] && a[0] == b[0] {
      CompareStringsOrder(a[1..], b[1..]);
      assert a == [a[0]] + a[1..] && b == [b[0]] + b[1..];
    }
  }

  lemma {:induction false} CompareStringsTransitive(a: string, b: string, c: string)
    requires CompareStrings(a, b) <= 0 && CompareStrings(b, c) <= 0
    ensures CompareStrings(a, c) <= 0
    ensures CompareStrings(a, c) == 0 ==> CompareStrings(a, b) == 0 && CompareStrings(b, c) == 0
  {
    if a != [] && b != [] && c != [] && a[0] == b[0] == c[0] {
      CompareStringsTransitive(a[1..], b[1..], c[1..]);
    }
  }

  function CompareField(o: Order, a: NoteSummary, b: NoteSummary): int {
    if o.field == SORT_BY_TITLE then CompareStrings(a.title, b.title)
    else CompareInts(a.updatedAt, b.updatedAt)
  }

  /** The direction reverses the field only: ties always list by ascending path. */
  function Compare(o: Order, a: NoteSummary, b: NoteSummary): int {
    var n := CompareField(o, a, b);
    var d := if o.desc then -n else n;
    if d != 0 then d else CompareStrings(a.ref.path, b.ref.path)
  }

  predicate Leq(o: Order, a: NoteSummary, b: NoteSummary) {
    Compare(o, a, b) <= 0
  }

  lemma LeqTotal(o: Order, a: NoteSummary, b: NoteSummary)
    ensures Leq(o, a, b) || Leq(o, b, a)
    ensures Leq(o, a, b) && Leq(o, b, a) ==> a.ref.path == b.ref.path
  {
    CompareStringsOrder(a.title, b.title);
    CompareStringsOrder(a.ref.path, b.ref.path);
  }

  lemma LeqTransitive(o: Order, a: NoteSummary, b: NoteSummary, c: NoteSummary)
    requires Leq(o, a, b) && Leq(o, b, c)
    ensures Leq(o, a, c)
  {
    CompareStringsOrder(a.title, b.title);
    CompareStringsOrder(b.title, c.title);
    CompareStringsOrder(a.title, c.title);
    if CompareStrings(a.title, b.title) <= 0 && CompareStrings(b.title, c.title) <= 0 {
      CompareStringsTransitive(a.title, b.title, c.title);
    }
    if CompareStrings(c.title, b.title) <= 0 && CompareStrings(b.title, a.title) <= 0 {
      CompareStringsTransitive(c.title, b.title, a.title);
    }
    if CompareStrings(a.ref.path, b.ref.path) <= 0 && CompareStrings(b.ref.path, c.ref.path) <= 0 {
      CompareStringsTransitive(a.ref.path, b.ref.path, c.ref.path);
    }
  }

  ghost predicate DistinctPaths(s: seq<NoteSummary>) {
    forall i, j :: 0 <= i < j < |s| ==> s[i].ref.path != s[j].ref.path
  }

  function LeqFunction(o: Order): (NoteSummary, NoteSummary) -> bool {
    (a, b) => Leq(o, a, b)
  }

  /** A comparator that ties two notes only when their paths agree. */
  ghost predicate PathOrder(leq: (NoteSummary, NoteSummary) -> bool) {
    && TotalPreorder(leq)
    && forall a, b :: leq(a, b) && leq(b, a) ==> a.ref.path == b.ref.path
  }

  /** Every sort request yields such a comparator, in both directions. */
  lemma LeqIsPathOrder(o: Order)
    ensures PathOrder(LeqFunction(o))
  {
    var leq := LeqFunction(o);
    forall a, b
      ensures leq(a, b) || leq(b, a)
      ensures leq(a, b) && leq(b, a) ==> a.ref.path == b.ref.path
    {
      LeqTotal(o, a, b);
    }
    forall a, b, c | leq(a, b) && leq(b, c) ensures leq(a, c) { LeqTransitive(o, a, b, c); }
  }

  lemma LeqFirst(leq: (NoteSummary, NoteSummary) -> bool, s: seq<NoteSummary>, i: nat)
    requires PathOrder(leq) && SortedBy(leq, s) && i < |s|
    ensures leq(s[0], s[i])
  {
  }

  lemma SameHead(leq: (NoteSummary, NoteSummary) -> bool, a: seq<NoteSummary>, b: seq<NoteSummary>)
    requires PathOrder(leq) && SortedBy(leq, a) && SortedBy(leq, b) && DistinctPaths(a)
    requires a != [] && b != [] && a[0] in b && b[0] in a
    ensures a[0] == b[0]
  {
    var i :| 0 <= i < |a| && a[i] == b[0];
    var j :| 0 <= j < |b| && b[j] == a[0];
    assert leq(a[0], b[0]) by { LeqFirst(leq, a, i); }
    assert leq(b[0], a[0]) by { LeqFirst(leq, b, j); }
  }

  /** The comparator orders the notes of one scope completely, so a scope has one
      sorted listing: neither map iteration order nor tie-breaking shows. */
  lemma {:induction false} SortedListingUnique(leq: (NoteSummary, NoteSummary) -> bool,
                                              a: seq<NoteSummary>, b: seq<NoteSummary>)
    requires PathOrder(leq) && SortedBy(leq, a) && SortedBy(leq, b) && DistinctPaths(a)
    requires multiset(a) == multiset(b)
    ensures a == b
  {
    assert |a| == |multiset(a)| == |multiset(b)| == |b|;
    if a != [] {
      assert a[0] in multiset(b) && b[0] in multiset(a);
      SameHead(leq, a, b);
      RemoveHead(a, b);
      SortedListingUnique(leq, a[1..], b[1..]);
      assert a == [a[0]] + a[1..] && b == [b[0]] + b[1..];
    }
  }

  // ----- The order as a reader of a listing sees it -----

  /** The dictionary order: a is a proper beginning of b, or smaller where they first differ. */
  ghost predicate LexBefore(a: string, b: string) {
    exists k :: DiffersFrom(a, b, k)
  }

  predicate DiffersFrom(a: string, b: string, k: int) {
    && 0 <= k <= |a| && k < |b| && a[..k] == b[..k]
    && (k == |a| || a[k] < b[k])
  }

  lemma DiffersShifted(a: string, b: string, k: nat)
    requires a != [] && b != [] && a[0] == b[0]
    ensures DiffersFrom(a, b, k + 1) <==> DiffersFrom(a[1..], b[1..], k)
  {
    if k < |a| && k + 1 < |b| {
      assert a[..k + 1] == [a[0]] + a[1..][..k] && b[..k + 1] == [b[0]] + b[1..][..k];
      assert a[1..][..k] == a[..k + 1][1..] && b[1..][..k] == b[..k + 1][1..];
    }
  }

  lemma LexBeforeRest(a: string, b: string)
    requires a != [] && b != [] && a[0] == b[0]
    ensures LexBefore(a, b) <==> LexBefore(a[1..], b[1..])
  {
    if LexBefore(a, b) {
      var k :| DiffersFrom(a, b, k);
      assert k > 0;
      DiffersShifted(a, b, k - 1);
    }
    if LexBefore(a[1..], b[1..]) {
      var k :| DiffersFrom(a[1..], b[1..], k);
      DiffersShifted(a, b, k);
    }
  }

  lemma LexBeforeHeads(a: string, b: string)
    requires a == [] || b == [] || a[0] != b[0]
    ensures LexBefore(a, b) <==> b != [] && (a == [] || a[0] < b[0])
  {
    if b != [] && (a == [] || a[0] < b[0]) { assert DiffersFrom(a, b, 0); }
    forall k | DiffersFrom(a, b, k) ensures k == 0 {
    }
  }

  lemma {:induction false} CompareStringsMeans(a: string, b: string)
    ensures CompareStrings(a, b) < 0 <==> LexBefore(a, b)
    ensures CompareStrings(a, b) > 0 <==> LexBefore(b, a)
  {
    if a == [] || b == [] || a[0] != b[0] {
      LexBeforeHeads(a, b);
      LexBeforeHeads(b, a);
    } else {
      LexBeforeRest(a, b);
      LexBeforeRest(b, a);
      CompareStringsMeans(a[1..], b[1..]);
    }
  }

  /** a may stand before b: titles ascend, or descend if asked to, when sorting by "title", and
      update times do otherwise; among equals the paths ascend in both directions. */
  ghost predicate ListedBefore(o: Order, a: NoteSummary, b: NoteSummary) {
    if o.field == "title" then
      if a.title == b.title then a.ref.path == b.ref.path || LexBefore(a.ref.path, b.ref.path)
      else if o.desc then LexBefore(b.title, a.title)
      else LexBefore(a.title, b.title)
    else
      if a.updatedAt == b.updatedAt then a.ref.path == b.ref.path || LexBefore(a.ref.path, b.ref.path)
      else if o.desc then b.updatedAt < a.updatedAt
      else a.updatedAt < b.updatedAt
  }

  ghost predicate InListingOrder(o: Order, s: seq<NoteSummary>) {
    forall i, j :: 0 <= i < j < |s| ==> ListedBefore(o, s[i], s[j])
  }

  lemma LeqMeans(o: Order, a: NoteSummary, b: NoteSummary)
    ensures Leq(o, a, b) <==> ListedBefore(o, a, b)
  {
    CompareStringsMeans(a.title, b.title);
    CompareStringsMeans(a.ref.path, b.ref.path);
    CompareStringsOrder(a.title, b.title);
    CompareStringsOrder(a.ref.path, b.ref.path);
  }

  /** Sorting by the comparator is what a reader expects of the field and the direction. */
  lemma SortedMeans(o: Order, s: seq<NoteSummary>)
    ensures SortedBy(LeqFunction(o), s) <==> InListingOrder(o, s)
  {
    var leq := LeqFunction(o);
    forall a, b ensures leq(a, b) <==> ListedBefore(o, a, b) { LeqMeans(o, a, b); }
    if InListingOrder(o, s) {
      forall i, j | 0 <= i < j < |s| ensures leq(s[i], s[j]) { assert ListedBefore(o, s[i], s[j]); }
    }
    if SortedBy(leq, s) {
      forall i, j | 0 <= i < j < |s| ensures ListedBefore(o, s[i], s[j]) { assert leq(s[i], s[j]); }
    }
  }

  /** In-place sort of a note slice: some sorted rearrangement, and the only one
      when the paths differ. */
  method SortSummaries(notes: seq<NoteSummary>, o: Order) returns (r: seq<NoteSummary>)
    ensures SortedBy(LeqFunction(o), r) && multiset(r) == multiset(notes)
    ensures InListingOrder(o, r)
  {
    LeqIsPathOrder(o);
    r := SortFunc(notes, LeqFunction(o));
    SortedMeans(o, r);
  }

  /** Keeps the notes that satisfy the filter, in the order they came. */
  method ApplyFilter(notes: seq<NoteSummary>, matches: NoteSummary -> bool) returns (r: seq<NoteSummary>)
    ensures r == Filter(notes, matches)
  {
    r := [];
    for i := 0 to |notes|
      invariant r == Filter(notes[..i], matches)
    {
      assert notes[..i + 1] == notes[..i] + [notes[i]];
      FilterAppend(notes[..i], [notes[i]], matches);
      if matches(notes[i]) {
        r := r + [notes[i]];
      }
    }
    assert notes[..|notes|] == notes;
  }

  lemma FilterDistinctPaths(s: seq<NoteSummary>, p: NoteSummary -> bool)
    requires DistinctPaths(s)
    ensures DistinctPaths(Filter(s, p))
  {
    forall j, k | 0 <= j < k < |Filter(s, p)|
      ensures Filter(s, p)[j].ref.path != Filter(s, p)[k].ref.path
    {
      FilterIndexIncreasing(s, p, j, k);
    }
  }

  lemma DistinctPathsNoDuplicates(s: seq<NoteSummary>)
    requires DistinctPaths(s)
    ensures NoDuplicates(s)
  {
  }
}
