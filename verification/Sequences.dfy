/** Facts about filtering, sorting and counting that every other module uses. */
module Sequences {

  datatype Option<+T> = None | Some(value: T)

  datatype Result<+T, +E> = Ok(value: T) | Err(error: E)

  function Max(a: int, b: int): int {
    if a < b then b else a
  }

  function Min(a: int, b: int): int {
    if a < b then a else b
  }

  ghost predicate NoDuplicates<T>(s: seq<T>) {
    forall i, j :: 0 <= i < j < |s| ==> s[i] != s[j]
  }

  function ToSet<T>(s: seq<T>): set<T> {
    set x | x in s
  }

  // ----- Filtering -----

  function Filter<T>(s: seq<T>, p: T -> bool): (r: seq<T>)
    ensures |r| <= |s|
  {
    if s == [] then []
    else if p(s[0]) then [s[0]] + Filter(s[1..], p)
    else Filter(s[1..], p)
  }

  lemma FilterAppend<T>(a: seq<T>, b: seq<T>, p: T -> bool)
    ensures Filter(a + b, p) == Filter(a, p) + Filter(b, p)
  {
    if a == [] {
      assert a + b == b;
    } else {
      assert (a + b)[1..] == a[1..] + b;
      FilterAppend(a[1..], b, p);
    }
  }

  lemma FilterMember<T>(s: seq<T>, p: T -> bool, x: T)
    ensures x in Filter(s, p) <==> x in s && p(x)
  {
    if s != [] { FilterMember(s[1..], p, x); }
  }

  lemma FilterMembers<T(!new)>(s: seq<T>, p: T -> bool)
    ensures forall x :: x in Filter(s, p) <==> x in s && p(x)
  {
    forall x ensures x in Filter(s, p) <==> x in s && p(x) { FilterMember(s, p, x); }
  }

  lemma FilterCount<T>(s: seq<T>, p: T -> bool, x: T)
    ensures multiset(Filter(s, p))[x] == if p(x) then multiset(s)[x] else 0
  {
    if s != [] {
      assert s == [s[0]] + s[1..];
      FilterCount(s[1..], p, x);
    }
  }

  /** Filtering depends on the elements, not on how they were arranged. */
  lemma FilterMultiset<T(!new)>(a: seq<T>, b: seq<T>, p: T -> bool)
    requires multiset(a) == multiset(b)
    ensures multiset(Filter(a, p)) == multiset(Filter(b, p))
  {
    var fa, fb := multiset(Filter(a, p)), multiset(Filter(b, p));
    forall x ensures fa[x] == fb[x] {
      FilterCount(a, p, x);
      FilterCount(b, p, x);
    }
  }

  lemma FilterNone<T>(s: seq<T>, p: T -> bool)
    requires forall i :: 0 <= i < |s| ==> !p(s[i])
    ensures Filter(s, p) == []
  {
  }

  lemma FilterAll<T>(s: seq<T>, p: T -> bool)
    requires forall i :: 0 <= i < |s| ==> p(s[i])
    ensures Filter(s, p) == s
  {
    if s != [] {
      FilterAll(s[1..], p);
    }
  }

  /** Where the kept elements come from: an increasing map back to the source. */
  ghost function FilterIndex<T>(s: seq<T>, p: T -> bool, k: nat): (i: nat)
    requires k < |Filter(s, p)|
    ensures i < |s| && s[i] == Filter(s, p)[k]
  {
    if p(s[0]) then (if k == 0 then 0 else 1 + FilterIndex(s[1..], p, k - 1))
    else 1 + FilterIndex(s[1..], p, k)
  }

  lemma FilterIndexIncreasing<T>(s: seq<T>, p: T -> bool, j: nat, k: nat)
    requires j < k < |Filter(s, p)|
    ensures FilterIndex(s, p, j) < FilterIndex(s, p, k)
  {
    if p(s[0]) {
      if j > 0 { FilterIndexIncreasing(s[1..], p, j - 1, k - 1); }
    } else {
      FilterIndexIncreasing(s[1..], p, j, k);
    }
  }

  lemma FilterBoth<T>(s: seq<T>, p: T -> bool, q: T -> bool, both: T -> bool)
    requires forall x :: x in s ==> (both(x) <==> p(x) && q(x))
    ensures Filter(Filter(s, p), q) == Filter(s, both)
  {
    if s != [] {
      FilterBoth(s[1..], p, q, both);
      assert s[0] in s;
      if p(s[0]) { assert ([s[0]] + Filter(s[1..], p))[1..] == Filter(s[1..], p); }
    }
  }

  /** Picked is what is left of s, in order, when the elements outside keep are struck out. */
  ghost predicate StruckTo<T>(s: seq<T>, keep: set<T>, picked: seq<T>) {
    exists at: seq<nat> :: PickedAt(s, keep, picked, at)
  }

  ghost predicate PickedAt<T>(s: seq<T>, keep: set<T>, picked: seq<T>, at: seq<nat>) {
    && |at| == |picked|
    && (forall i, j :: 0 <= i < j < |at| ==> at[i] < at[j])
    && (forall i :: 0 <= i < |at| ==> at[i] < |s| && picked[i] == s[at[i]] && picked[i] in keep)
    && (forall k :: 0 <= k < |s| && s[k] in keep ==> k in at)
  }

  lemma {:induction false} PickedNext<T>(s: seq<T>, keep: set<T>, picked: seq<T>, at: seq<nat>, x: T)
    requires PickedAt(s, keep, picked, at)
    ensures x in keep ==> PickedAt(s + [x], keep, picked + [x], at + [|s|])
    ensures x !in keep ==> PickedAt(s + [x], keep, picked, at)
  {
    var s', at' := s + [x], at + [|s|];
    assert forall k :: 0 <= k < |s| ==> s'[k] == s[k];
    assert forall k :: k in at ==> k in at';
    assert at'[|at|] == |s|;
  }

  lemma {:induction false} FilterStrikes<T>(s: seq<T>, p: T -> bool, keep: set<T>)
    requires forall x :: x in s ==> (p(x) <==> x in keep)
    ensures StruckTo(s, keep, Filter(s, p))
    decreases |s|
  {
    if s == [] {
      assert PickedAt(s, keep, [], []);
    } else {
      var front, x := s[..|s| - 1], s[|s| - 1];
      assert s == front + [x];
      FilterStrikes(front, p, keep);
      var at: seq<nat> :| PickedAt(front, keep, Filter(front, p), at);
      PickedNext(front, keep, Filter(front, p), at, x);
      FilterAppend(front, [x], p);
      assert x in s;
      assert Filter([x], p) == if x in keep then [x] else [];
      assert Filter(s, p) == Filter(front, p) + if x in keep then [x] else [];
      assert x !in keep ==> Filter(s, p) == Filter(front, p);
    }
  }

  lemma FilterNoDuplicates<T>(s: seq<T>, p: T -> bool)
    requires NoDuplicates(s)
    ensures NoDuplicates(Filter(s, p))
  {
    forall j, k | 0 <= j < k < |Filter(s, p)| ensures Filter(s, p)[j] != Filter(s, p)[k] {
      FilterIndexIncreasing(s, p, j, k);
    }
  }

  // ----- Multisets of sequences -----

  lemma MultisetSplit<T>(s: seq<T>, k: nat)
    requires k <= |s|
    ensures multiset(s) == multiset(s[..k]) + multiset(s[k..])
  {
    assert s == s[..k] + s[k..];
  }

  lemma RemoveHead<T>(a: seq<T>, b: seq<T>)
    requires a != [] && b != [] && a[0] == b[0] && multiset(a) == multiset(b)
    ensures multiset(a[1..]) == multiset(b[1..])
  {
    MultisetSplit(a, 1);
    MultisetSplit(b, 1);
    assert a[..1] == b[..1];
    assert multiset(a[1..]) == multiset(a) - multiset(a[..1]);
    assert multiset(b[1..]) == multiset(b) - multiset(b[..1]);
  }

  lemma NoDuplicatesCount<T>(s: seq<T>, x: T)
    requires NoDuplicates(s)
    ensures multiset(s)[x] == if x in s then 1 else 0
  {
    if s != [] {
      assert s == [s[0]] + s[1..];
      NoDuplicatesCount(s[1..], x);
    }
  }

  lemma CountAtMostOne<T>(s: seq<T>)
    requires forall x :: x in s ==> multiset(s)[x] <= 1
    ensures NoDuplicates(s)
  {
    forall i, j | 0 <= i < j < |s| ensures s[i] != s[j] {
      MultisetSplit(s, j);
      assert s[..j][i] == s[i] && s[..j][i] in multiset(s[..j]);
      assert s[j..][0] == s[j] && s[j..][0] in multiset(s[j..]);
      assert multiset(s)[s[i]] == multiset(s[..j])[s[i]] + multiset(s[j..])[s[i]];
    }
  }

  lemma NoDuplicatesMultiset<T>(a: seq<T>, b: seq<T>)
    requires NoDuplicates(a) && multiset(a) == multiset(b)
    ensures NoDuplicates(b)
  {
    forall x | x in b ensures multiset(b)[x] <= 1 { NoDuplicatesCount(a, x); }
    CountAtMostOne(b);
  }

  /** Two duplicate-free sequences with the same members are permutations. */
  lemma SameMembers<T>(a: seq<T>, b: seq<T>)
    requires NoDuplicates(a) && NoDuplicates(b)
    requires forall x :: x in a <==> x in b
    ensures multiset(a) == multiset(b)
  {
    forall x ensures multiset(a)[x] == multiset(b)[x] {
      NoDuplicatesCount(a, x);
      NoDuplicatesCount(b, x);
    }
  }

  /** Stands for ranging over a map or set: each element once, in an order that stays open. */
  method Range<T>(elements: set<T>) returns (order: seq<T>)
    ensures NoDuplicates(order) && forall x :: x in order <==> x in elements
  {
    order := [];
    var rest := elements;
    while rest != {}
      invariant rest <= elements
      invariant NoDuplicates(order) && forall x :: x in order <==> x in elements && x !in rest
      decreases |rest|
    {
      var x :| x in rest;
      rest := rest - {x};
      order := order + [x];
    }
  }

  // ----- Sums over maps -----

  ghost function MapSum<K>(m: map<K, nat>): nat {
    if m == map[] then 0
    else
      var k :| k in m;
      m[k] + MapSum(m - {k})
  }

  lemma {:induction false} MapSumRemove<K>(m: map<K, nat>, k: K)
    requires k in m
    ensures MapSum(m) == m[k] + MapSum(m - {k})
    decreases |m|
  {
    var j :| j in m && MapSum(m) == m[j] + MapSum(m - {j});
    if j != k {
      assert (m - {j}) - {k} == (m - {k}) - {j};
      MapSumRemove(m - {j}, k);
      MapSumRemove(m - {k}, j);
    }
  }

  lemma MapSumUpdate<K>(m: map<K, nat>, k: K, v: nat)
    ensures MapSum(m[k := v]) == MapSum(m) - (if k in m then m[k] else 0) + v
  {
    MapSumRemove(m[k := v], k);
    assert m[k := v] - {k} == m - {k};
    if k in m { MapSumRemove(m, k); } else { assert m - {k} == m; }
  }

  // ----- Sorting -----

  ghost predicate TotalPreorder<T(!new)>(leq: (T, T) -> bool) {
    && (forall x, y :: leq(x, y) || leq(y, x))
    && (forall x, y, z :: leq(x, y) && leq(y, z) ==> leq(x, z))
  }

  ghost predicate SortedBy<T>(leq: (T, T) -> bool, s: seq<T>) {
    forall i, j {:trigger leq(s[i], s[j])} :: 0 <= i < j < |s| ==> leq(s[i], s[j])
  }

  lemma FilterSorted<T>(leq: (T, T) -> bool, s: seq<T>, p: T -> bool)
    requires SortedBy(leq, s)
    ensures SortedBy(leq, Filter(s, p))
  {
    forall j, k | 0 <= j < k < |Filter(s, p)| ensures leq(Filter(s, p)[j], Filter(s, p)[k]) {
      FilterIndexIncreasing(s, p, j, k);
    }
  }

  /** An element placed behind those that may precede it keeps the order. */
  lemma SortedInsert<T(!new)>(leq: (T, T) -> bool, r: seq<T>, k: nat, x: T)
    requires TotalPreorder(leq) && SortedBy(leq, r) && k <= |r|
    requires (forall j :: 0 <= j < k ==> leq(r[j], x)) && (k < |r| ==> leq(x, r[k]))
    ensures SortedBy(leq, r[..k] + [x] + r[k..]) && multiset(r[..k] + [x] + r[k..]) == multiset(r) + multiset{x}
  {
    MultisetSplit(r, k);
    var r' := r[..k] + [x] + r[k..];
    forall i, j | 0 <= i < j < |r'| ensures leq(r'[i], r'[j]) {
      var a, b := if i < k then i else i - 1, if j < k then j else j - 1;
      assert i != k ==> r'[i] == r[a];
      assert j != k ==> r'[j] == r[b];
      if i == k && k < b { assert leq(r[k], r[b]); }
    }
  }

  /** How many elements may precede x, from the front. */
  ghost function Place<T(!new)>(leq: (T, T) -> bool, s: seq<T>, x: T): (k: nat)
    ensures k <= |s| && (forall j :: 0 <= j < k ==> leq(s[j], x)) && (k < |s| ==> !leq(s[k], x))
  {
    if s == [] || !leq(s[0], x) then 0 else 1 + Place(leq, s[1..], x)
  }

  /** Everything can be sorted. */
  lemma {:induction false} SortedExists<T(!new)>(leq: (T, T) -> bool, s: seq<T>) returns (r: seq<T>)
    requires TotalPreorder(leq)
    ensures multiset(r) == multiset(s) && SortedBy(leq, r)
  {
    if s == [] {
      r := [];
    } else {
      var front := SortedExists(leq, s[..|s| - 1]);
      var x := s[|s| - 1];
      var k := Place(leq, front, x);
      SortedInsert(leq, front, k, x);
      r := front[..k] + [x] + front[k..];
      assert s == s[..|s| - 1] + [x];
    }
  }

  /** Stands for slices.SortFunc. Callers learn only that the result is a
      sorted rearrangement; which of several tied elements comes first stays open. */
  method SortFunc<T(!new)>(s: seq<T>, leq: (T, T) -> bool) returns (r: seq<T>)
    requires TotalPreorder(leq)
    ensures multiset(r) == multiset(s)
    ensures SortedBy(leq, r)
  {
    r := [];
    for i := 0 to |s|
      invariant multiset(r) == multiset(s[..i])
      invariant SortedBy(leq, r)
    {
      var k := 0;
      while k < |r| && leq(r[k], s[i])
        invariant 0 <= k <= |r|
        invariant forall j :: 0 <= j < k ==> leq(r[j], s[i])
      {
        k := k + 1;
      }
      SortedInsert(leq, r, k, s[i]);
      assert s[..i + 1] == s[..i] + [s[i]];
      r := r[..k] + [s[i]] + r[k..];
    }
    assert s[..|s|] == s;
  }
}
