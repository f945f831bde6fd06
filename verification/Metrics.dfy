/** Ranking metrics: normalised discounted cumulative gain and recall at a cut-off. */
module Metrics {
  import opened Sequences

  type Grades = map<string, real>

  /** The two library functions, with the facts about them that the metrics rest on. */
  datatype Maths = Maths(pow2: real -> real, log2: real -> real)

  ghost predicate Lawful(m: Maths) {
    && m.pow2(0.0) == 1.0
    && (forall x, y :: x < y ==> m.pow2(x) < m.pow2(y))
    && m.log2(1.0) == 0.0
    && (forall x, y :: 1.0 <= x < y ==> m.log2(x) < m.log2(y))
  }

  function Discount(m: Maths, i: nat): real {
    m.log2((i + 2) as real)
  }

  lemma DiscountGrows(m: Maths, i: nat, j: nat)
    requires Lawful(m) && i <= j
    ensures 0.0 < Discount(m, i) <= Discount(m, j)
    ensures i < j ==> Discount(m, i) < Discount(m, j)
  {
    assert m.log2(1.0) < m.log2((i + 2) as real);
  }

  function Gain(m: Maths, grade: real): real {
    if grade == 0.0 then 0.0 else m.pow2(grade) - 1.0
  }

  function At(s: seq<real>, i: nat): real {
    if i < |s| then s[i] else 0.0
  }

  /** The grade of an id; unknown ids have grade zero. */
  function GradeOf(relevance: Grades, id: string): real {
    if id in relevance then relevance[id] else 0.0
  }

  function GradesOf(relevance: Grades, ids: seq<string>): (s: seq<real>)
    ensures |s| == |ids|
  {
    seq(|ids|, i requires 0 <= i < |ids| => GradeOf(relevance, ids[i]))
  }

  ghost predicate NonNegative(relevance: Grades) {
    forall id :: id in relevance ==> 0.0 <= relevance[id]
  }

  // ----- Sums over a graded list, padded with zeros -----

  ghost function Sum(s: seq<real>, f: real -> real, n: nat): real {
    if n == 0 then 0.0 else Sum(s, f, n - 1) + f(At(s, n - 1))
  }

  ghost function Dcg(m: Maths, s: seq<real>, n: nat): real
    requires Lawful(m)
  {
    if n == 0 then 0.0
    else
      DiscountGrows(m, n - 1, n - 1);
      Dcg(m, s, n - 1) + Gain(m, At(s, n - 1)) / Discount(m, n - 1)
  }

  ghost predicate Descending(s: seq<real>) {
    forall i, j :: 0 <= i < j < |s| ==> s[i] >= s[j]
  }

  ghost function Holders(relevance: Grades, v: real): set<string> {
    set id | id in relevance && relevance[id] == v
  }

  /** The grades of all judged documents, best first. */
  ghost predicate IsIdeal(relevance: Grades, s: seq<real>) {
    Descending(s) && forall v :: multiset(s)[v] == |Holders(relevance, v)|
  }

  function Cut(s: seq<real>, k: nat): seq<real> {
    if k < |s| then s[..k] else s
  }

  function CutIds(ranked: seq<string>, k: nat): seq<string> {
    if k < |ranked| then ranked[..k] else ranked
  }

  /** The grades of the first k ranked documents. */
  function Ranked(relevance: Grades, ranked: seq<string>, k: nat): (s: seq<real>)
    ensures |s| <= k
  {
    GradesOf(relevance, CutIds(ranked, k))
  }

  ghost function Ndcg(m: Maths, k: int, ranked: seq<string>, relevance: Grades, ideal: seq<real>): real
    requires Lawful(m)
  {
    if k <= 0 || Dcg(m, Cut(ideal, k), k) == 0.0 then 0.0
    else Dcg(m, Ranked(relevance, ranked, k), k) / Dcg(m, Cut(ideal, k), k)
  }

  // ----- The published formula, written out -----

  /** The first n places of a ranking: two to the power of the grade, less one, over the logarithm
      of the place counted from two. */
  ghost function RankedGain(m: Maths, ranked: seq<string>, relevance: Grades, n: nat): real
    requires Lawful(m)
  {
    if n == 0 then 0.0
    else
      var id := if n <= |ranked| then ranked[n - 1] else "";
      var grade := if n <= |ranked| && id in relevance then relevance[id] else 0.0;
      PlacePositive(m, n);
      RankedGain(m, ranked, relevance, n - 1) + (m.pow2(grade) - 1.0) / m.log2((n + 1) as real)
  }

  /** The same of the best grades there are. */
  ghost function BestGain(m: Maths, ideal: seq<real>, n: nat): real
    requires Lawful(m)
  {
    if n == 0 then 0.0
    else
      var grade := if n <= |ideal| then ideal[n - 1] else 0.0;
      PlacePositive(m, n);
      BestGain(m, ideal, n - 1) + (m.pow2(grade) - 1.0) / m.log2((n + 1) as real)
  }

  lemma PlacePositive(m: Maths, n: nat)
    requires Lawful(m) && n > 0
    ensures m.log2((n + 1) as real) > 0.0
  {
    assert m.log2(1.0) < m.log2((n + 1) as real);
  }

  lemma {:induction false} DcgIsRankedGain(m: Maths, ranked: seq<string>, relevance: Grades, k: nat, n: nat)
    requires Lawful(m) && n <= k
    ensures Dcg(m, Ranked(relevance, ranked, k), n) == RankedGain(m, ranked, relevance, n)
  {
    if n > 0 { DcgIsRankedGain(m, ranked, relevance, k, n - 1); }
  }

  lemma {:induction false} DcgIsBestGain(m: Maths, ideal: seq<real>, k: nat, n: nat)
    requires Lawful(m) && n <= k
    ensures Dcg(m, Cut(ideal, k), n) == BestGain(m, ideal, n)
  {
    if n > 0 { DcgIsBestGain(m, ideal, k, n - 1); }
  }

  /** The score: the gain of the ranking over the best gain possible, 0 if that is 0. */
  lemma NdcgMeans(m: Maths, k: int, ranked: seq<string>, relevance: Grades, ideal: seq<real>)
    requires Lawful(m)
    ensures k <= 0 ==> Ndcg(m, k, ranked, relevance, ideal) == 0.0
    ensures k > 0 ==>
              Ndcg(m, k, ranked, relevance, ideal)
                == if BestGain(m, ideal, k) == 0.0 then 0.0
                   else RankedGain(m, ranked, relevance, k) / BestGain(m, ideal, k)
  {
    if k > 0 {
      DcgIsRankedGain(m, ranked, relevance, k, k);
      DcgIsBestGain(m, ideal, k, k);
    }
  }

  // ----- The ideal list is determined -----

  lemma {:induction false} DescendingUnique(a: seq<real>, b: seq<real>)
    requires Descending(a) && Descending(b) && multiset(a) == multiset(b)
    ensures a == b
  {
    assert |a| == |multiset(a)| == |multiset(b)| == |b|;
    if a != [] {
      SameBest(a, b);
      RemoveHead(a, b);
      DescendingUnique(a[1..], b[1..]);
      assert a == [a[0]] + a[1..] && b == [b[0]] + b[1..];
    }
  }

  lemma SameBest(a: seq<real>, b: seq<real>)
    requires Descending(a) && Descending(b) && multiset(a) == multiset(b) && a != [] && b != []
    ensures a[0] == b[0]
  {
    assert a[0] in multiset(b) && b[0] in multiset(a);
    var i :| 0 <= i < |a| && a[i] == b[0];
    var j :| 0 <= j < |b| && b[j] == a[0];
  }

  lemma IdealUnique(relevance: Grades, a: seq<real>, b: seq<real>)
    requires IsIdeal(relevance, a) && IsIdeal(relevance, b)
    ensures a == b
  {
    assert multiset(a) == multiset(b);
    DescendingUnique(a, b);
  }

  // ----- Sums over parts -----

  lemma {:induction false} SumPrefix(a: seq<real>, b: seq<real>, f: real -> real, n: nat)
    requires n <= |a| && n <= |b| && a[..n] == b[..n]
    ensures Sum(a, f, n) == Sum(b, f, n)
  {
    if n > 0 {
      assert a[n - 1] == a[..n][n - 1] == b[..n][n - 1] == b[n - 1];
      assert a[..n - 1] == a[..n][..n - 1] == b[..n][..n - 1] == b[..n - 1];
      SumPrefix(a, b, f, n - 1);
    }
  }

  lemma {:induction false} SumAppend(a: seq<real>, b: seq<real>, f: real -> real)
    ensures Sum(a + b, f, |a + b|) == Sum(a, f, |a|) + Sum(b, f, |b|)
  {
    if b == [] {
      assert a + b == a;
    } else {
      var b' := b[..|b| - 1];
      SumAppend(a, b', f);
      SumPrefix(a + b, a + b', f, |a + b'|);
      SumPrefix(b, b', f, |b'|);
    }
  }

  lemma SumInsert(p: seq<real>, x: real, r: seq<real>, f: real -> real)
    ensures Sum(p + [x] + r, f, |p + [x] + r|) == f(x) + Sum(p + r, f, |p + r|)
  {
    SumAppend(p + [x], r, f);
    SumAppend(p, [x], f);
    SumAppend(p, r, f);
    assert Sum([x], f, 1) == Sum([x], f, 0) + f(x);
  }

  /** Any element can be taken out of a sum. */
  lemma TakeOut(s: seq<real>, x: real, f: real -> real) returns (rest: seq<real>)
    requires x in s
    ensures multiset(s) == multiset(rest) + multiset{x}
    ensures Sum(s, f, |s|) == f(x) + Sum(rest, f, |rest|)
  {
    var i :| 0 <= i < |s| && s[i] == x;
    rest := s[..i] + s[i + 1..];
    assert s == s[..i] + [x] + s[i + 1..];
    SumInsert(s[..i], x, s[i + 1..], f);
  }

  lemma PartWithout(a: multiset<real>, b: multiset<real>, x: real)
    requires a + multiset{x} <= b + multiset{x}
    ensures a <= b
  {
    forall y ensures a[y] <= b[y] { assert (a + multiset{x})[y] <= (b + multiset{x})[y]; }
  }

  /** A part of a bag weighs at most the whole. */
  lemma {:induction false} SumOfPart(a: seq<real>, s: seq<real>, f: real -> real)
    requires multiset(a) <= multiset(s) && forall x :: f(x) >= 0.0
    ensures Sum(a, f, |a|) <= Sum(s, f, |s|)
    decreases |a|
  {
    if a == [] {
      SumPositive(s, f, |s|);
    } else {
      var x := a[|a| - 1];
      assert x in multiset(a) && x in multiset(s);
      var a' := TakeOut(a, x, f);
      var s' := TakeOut(s, x, f);
      PartWithout(multiset(a'), multiset(s'), x);
      assert |a'| == |multiset(a')| < |multiset(a)| == |a|;
      SumOfPart(a', s', f);
    }
  }

  lemma {:induction false} SumPositive(s: seq<real>, f: real -> real, n: nat)
    requires forall x :: f(x) >= 0.0
    ensures Sum(s, f, n) >= 0.0
  {
    if n > 0 { SumPositive(s, f, n - 1); }
  }

  /** Zeros add nothing. */
  lemma {:induction false} SumNonZero(s: seq<real>, f: real -> real)
    requires f(0.0) == 0.0
    ensures Sum(s, f, |s|) == Sum(Filter(s, x => x != 0.0), f, |Filter(s, x => x != 0.0)|)
  {
    var p := (x: real) => x != 0.0;
    if s != [] {
      var n := |s| - 1;
      assert s == s[..n] + [s[n]];
      SumNonZero(s[..n], f);
      FilterAppend(s[..n], [s[n]], p);
      SumPrefix(s, s[..n], f, n);
      SumAppend(Filter(s[..n], p), Filter([s[n]], p), f);
      assert Filter([s[n]], p) == if s[n] != 0.0 then [s[n]] else [];
      assert Sum([s[n]], f, 1) == Sum([s[n]], f, 0) + f(s[n]);
    }
  }

  lemma {:induction false} SumPadding(s: seq<real>, f: real -> real, n: nat)
    requires |s| <= n && f(0.0) == 0.0
    ensures Sum(s, f, n) == Sum(s, f, |s|)
  {
    if n > |s| { SumPadding(s, f, n - 1); }
  }

  // ----- Distinct ids draw on the judged grades at most once each -----

  ghost function ValuesOf(relevance: Grades, ids: set<string>, v: real): set<string> {
    set id | id in ids && id in relevance && relevance[id] == v
  }

  lemma OneMore(relevance: Grades, done: set<string>, id: string, v: real)
    requires id !in done && (v != 0.0 || id in relevance)
    ensures |ValuesOf(relevance, done + {id}, v)|
         == |ValuesOf(relevance, done, v)| + if v == GradeOf(relevance, id) then 1 else 0
  {
    if v == GradeOf(relevance, id) {
      assert ValuesOf(relevance, done + {id}, v) == ValuesOf(relevance, done, v) + {id};
    } else {
      assert ValuesOf(relevance, done + {id}, v) == ValuesOf(relevance, done, v);
    }
  }

  lemma {:induction false} GradeCount(relevance: Grades, ids: seq<string>, v: real)
    requires NoDuplicates(ids) && (v != 0.0 || forall i :: 0 <= i < |ids| ==> ids[i] in relevance)
    ensures multiset(GradesOf(relevance, ids))[v] == |ValuesOf(relevance, ToSet(ids), v)|
  {
    if ids == [] {
      assert ValuesOf(relevance, ToSet(ids), v) == {};
    } else {
      var front, id := ids[..|ids| - 1], ids[|ids| - 1];
      assert ids == front + [id];
      GradeCount(relevance, front, v);
      assert GradesOf(relevance, ids) == GradesOf(relevance, front) + [GradeOf(relevance, id)];
      assert ToSet(ids) == ToSet(front) + {id};
      OneMore(relevance, ToSet(front), id, v);
    }
  }

  lemma CardinalityOfPart<T>(a: set<T>, b: set<T>)
    requires a <= b
    ensures |a| <= |b|
    ensures |a| == |b| ==> a == b
  {
    if a != {} {
      var x :| x in a;
      CardinalityOfPart(a - {x}, b - {x});
      if |a| == |b| { assert a == (a - {x}) + {x} && b == (b - {x}) + {x}; }
    }
  }

  lemma RankedSumAtMostIdeal(relevance: Grades, ids: seq<string>, ideal: seq<real>, f: real -> real)
    requires NoDuplicates(ids) && IsIdeal(relevance, ideal)
    requires f(0.0) == 0.0 && forall x :: f(x) >= 0.0
    ensures Sum(GradesOf(relevance, ids), f, |ids|) <= Sum(ideal, f, |ideal|)
  {
    var p := (x: real) => x != 0.0;
    var grades := GradesOf(relevance, ids);
    forall v ensures multiset(Filter(grades, p))[v] <= multiset(ideal)[v] {
      FilterCount(grades, p, v);
      if v != 0.0 {
        GradeCount(relevance, ids, v);
        CardinalityOfPart(ValuesOf(relevance, ToSet(ids), v), Holders(relevance, v));
      }
    }
    SumOfPart(Filter(grades, p), ideal, f);
    SumNonZero(grades, f);
  }

  // ----- Every prefix of the ideal list gains the most -----

  function Excess(m: Maths, t: real): real -> real {
    x => if Gain(m, x) > t then Gain(m, x) - t else 0.0
  }

  function GainFunction(m: Maths): real -> real {
    x => Gain(m, x)
  }

  /** Over the best n grades, gain and excess over the n-th gain differ by the same amount each. */
  lemma {:induction false} GainByExcess(m: Maths, a: seq<real>, b: seq<real>, t: real, n: nat)
    requires forall i: nat :: i < n ==> Gain(m, At(b, i)) >= t
    ensures Sum(a, GainFunction(m), n) - Sum(b, GainFunction(m), n) <= Sum(a, Excess(m, t), n) - Sum(b, Excess(m, t), n)
  {
    if n > 0 { GainByExcess(m, a, b, t, n - 1); }
  }

  lemma {:induction false} NoExcessAfter(m: Maths, s: seq<real>, t: real, j: nat, n: nat)
    requires j <= n && forall i: nat :: j <= i < n ==> Gain(m, At(s, i)) <= t
    ensures Sum(s, Excess(m, t), n) == Sum(s, Excess(m, t), j)
  {
    if n > j { NoExcessAfter(m, s, t, j, n - 1); }
  }

  lemma GainMonotone(m: Maths, x: real, y: real)
    requires Lawful(m) && 0.0 <= x <= y
    ensures 0.0 <= Gain(m, x) <= Gain(m, y)
    ensures Gain(m, x) == Gain(m, y) ==> x == y
  {
    assert x < y ==> m.pow2(x) < m.pow2(y);
    assert 0.0 < x ==> m.pow2(0.0) < m.pow2(x);
  }

  lemma IdealNonNegative(relevance: Grades, ideal: seq<real>, i: nat)
    requires NonNegative(relevance) && IsIdeal(relevance, ideal)
    ensures 0.0 <= At(ideal, i)
  {
    if i < |ideal| {
      var v := ideal[i];
      assert v in multiset(ideal);
      assert |Holders(relevance, v)| > 0;
      var id :| id in Holders(relevance, v);
    }
  }

  lemma IdealThreshold(m: Maths, relevance: Grades, ideal: seq<real>, n: nat, i: nat)
    requires Lawful(m) && NonNegative(relevance) && IsIdeal(relevance, ideal) && n > 0
    ensures Gain(m, At(ideal, n - 1)) >= 0.0
    ensures i < n ==> Gain(m, At(ideal, i)) >= Gain(m, At(ideal, n - 1))
    ensures n <= i ==> Gain(m, At(ideal, i)) <= Gain(m, At(ideal, n - 1))
  {
    IdealNonNegative(relevance, ideal, i);
    IdealNonNegative(relevance, ideal, n - 1);
    if i < n {
      GainMonotone(m, At(ideal, n - 1), At(ideal, i));
    } else {
      GainMonotone(m, At(ideal, i), At(ideal, n - 1));
    }
  }

  /** The ideal list holds no excess past position n; nor does any list past its end. */
  lemma ExcessOfIdeal(m: Maths, relevance: Grades, ideal: seq<real>, n: nat)
    requires Lawful(m) && NonNegative(relevance) && IsIdeal(relevance, ideal) && n > 0
    ensures Sum(ideal, Excess(m, Gain(m, At(ideal, n - 1))), n)
      == Sum(ideal, Excess(m, Gain(m, At(ideal, n - 1))), |ideal|)
  {
    var t := Gain(m, At(ideal, n - 1));
    IdealThreshold(m, relevance, ideal, n, n);
    if n <= |ideal| {
      forall i: nat | n <= i < |ideal| ensures Gain(m, At(ideal, i)) <= t { IdealThreshold(m, relevance, ideal, n, i); }
      NoExcessAfter(m, ideal, t, n, |ideal|);
    } else {
      SumPadding(ideal, Excess(m, t), n);
    }
  }

  lemma ExcessOfRanked(relevance: Grades, ids: seq<string>, ideal: seq<real>, f: real -> real, n: nat)
    requires NoDuplicates(ids) && IsIdeal(relevance, ideal)
    requires f(0.0) == 0.0 && forall x :: f(x) >= 0.0
    ensures Sum(GradesOf(relevance, ids), f, n) <= Sum(ideal, f, |ideal|)
  {
    var part := CutIds(ids, n);
    var a, b := GradesOf(relevance, ids), GradesOf(relevance, part);
    RankedSumAtMostIdeal(relevance, part, ideal, f);
    if n < |ids| {
      assert a[..n] == b;
      SumPrefix(a, b, f, n);
    } else {
      SumPadding(a, f, n);
    }
  }

  /** The gain of any n distinct documents is at most the gain of the n best grades. */
  lemma PrefixDominance(m: Maths, relevance: Grades, ids: seq<string>, ideal: seq<real>, n: nat)
    requires Lawful(m) && NonNegative(relevance) && NoDuplicates(ids) && IsIdeal(relevance, ideal)
    ensures Sum(GradesOf(relevance, ids), GainFunction(m), n) <= Sum(ideal, GainFunction(m), n)
  {
    if n > 0 {
      var t := Gain(m, At(ideal, n - 1));
      forall i: nat | i < n ensures Gain(m, At(ideal, i)) >= t { IdealThreshold(m, relevance, ideal, n, i); }
      IdealThreshold(m, relevance, ideal, n, n);
      GainByExcess(m, GradesOf(relevance, ids), ideal, t, n);
      ExcessOfRanked(relevance, ids, ideal, Excess(m, t), n);
      ExcessOfIdeal(m, relevance, ideal, n);
    }
  }

  // ----- Discounting keeps the order of prefix gains (summation by parts) -----

  ghost function Lead(m: Maths, a: seq<real>, b: seq<real>, n: nat): real {
    Sum(b, GainFunction(m), n) - Sum(a, GainFunction(m), n)
  }

  ghost predicate Ahead(m: Maths, a: seq<real>, b: seq<real>, k: nat) {
    forall n: nat :: n <= k ==> Lead(m, a, b, n) >= 0.0
  }

  lemma ProductSign(x: real, y: real)
    requires y > 0.0
    ensures x < 0.0 <==> x * y < 0.0
    ensures x > 0.0 <==> x * y > 0.0
  {
  }

  lemma DivideSmaller(x: real, p: real, q: real)
    requires x >= 0.0 && 0.0 < p < q
    ensures x / p >= x / q >= 0.0
    ensures x / p == x / q ==> x == 0.0
  {
    var u, v := x / p, x / q;
    assert u * p == x && v * q == x;
    assert v * q == v * p + v * (q - p);
    ProductSign(v, q);
    ProductSign(v, q - p);
    assert (u - v) * p == v * (q - p);
    ProductSign(u - v, p);
  }

  /** One step of the sum: the lead d grows by g, and the discounts are p then q. */
  lemma DivideStep(d: real, g: real, p: real, q: real, diff: real)
    requires d >= 0.0 && d + g >= 0.0 && 0.0 < p < q && diff >= d / p
    ensures diff + g / q >= (d + g) / q
    ensures diff + g / q == 0.0 ==> d == 0.0 && g == 0.0 && diff == 0.0
  {
    DivideSmaller(d, p, q);
    DivideSum(d, g, q);
    DivideSmaller(d + g, p, q);
    if diff + g / q == 0.0 {
      assert (d + g) / q == 0.0;
      assert d + g == ((d + g) / q) * q;
    }
  }

  lemma DivideSum(x: real, y: real, q: real)
    requires q > 0.0
    ensures (x + y) / q == x / q + y / q
  {
    assert (x / q + y / q) * q == x + y;
  }

  lemma ZeroQuotient(x: real, q: real)
    requires q > 0.0
    ensures x / q == 0.0 ==> x == 0.0
  {
    assert x == (x / q) * q;
  }

  ghost predicate SameGains(m: Maths, a: seq<real>, b: seq<real>, n: nat) {
    forall i: nat :: i < n ==> Gain(m, At(a, i)) == Gain(m, At(b, i))
  }

  lemma DcgStep(m: Maths, a: seq<real>, b: seq<real>, n: nat, g: real)
    requires Lawful(m) && n > 0 && g == Gain(m, At(b, n - 1)) - Gain(m, At(a, n - 1))
    ensures Discount(m, n - 1) > 0.0
    ensures Dcg(m, b, n) - Dcg(m, a, n) == Dcg(m, b, n - 1) - Dcg(m, a, n - 1) + g / Discount(m, n - 1)
  {
    DiscountGrows(m, n - 1, n - 1);
    DivideSum(g, Gain(m, At(a, n - 1)), Discount(m, n - 1));
  }

  lemma {:induction false} SummationByParts(m: Maths, a: seq<real>, b: seq<real>, n: nat)
    requires Lawful(m) && n > 0 && Ahead(m, a, b, n)
    ensures Discount(m, n - 1) > 0.0
    ensures Dcg(m, b, n) - Dcg(m, a, n) >= Lead(m, a, b, n) / Discount(m, n - 1)
    ensures Dcg(m, b, n) == Dcg(m, a, n) ==> SameGains(m, a, b, n)
  {
    var g, q := Gain(m, At(b, n - 1)) - Gain(m, At(a, n - 1)), Discount(m, n - 1);
    DcgStep(m, a, b, n, g);
    var d, diff := Lead(m, a, b, n - 1), Dcg(m, b, n - 1) - Dcg(m, a, n - 1);
    assert Lead(m, a, b, n) == d + g;
    if n == 1 {
      ZeroQuotient(g, q);
    } else {
      SummationByParts(m, a, b, n - 1);
      DiscountGrows(m, n - 2, n - 1);
      DivideStep(d, g, Discount(m, n - 2), q, diff);
    }
  }

  // ----- The bound, and when it is reached -----

  lemma {:induction false} DcgCut(m: Maths, a: seq<real>, b: seq<real>, n: nat)
    requires Lawful(m) && forall i: nat :: i < n ==> At(a, i) == At(b, i)
    ensures Dcg(m, a, n) == Dcg(m, b, n)
  {
    if n > 0 { DcgCut(m, a, b, n - 1); }
  }

  lemma {:induction false} DcgNonNegative(m: Maths, s: seq<real>, n: nat)
    requires Lawful(m) && forall i: nat :: 0.0 <= At(s, i)
    ensures Dcg(m, s, n) >= 0.0
  {
    if n > 0 {
      DcgNonNegative(m, s, n - 1);
      GainMonotone(m, At(s, n - 1), At(s, n - 1));
      DiscountGrows(m, n - 1, n);
      DivideSmaller(Gain(m, At(s, n - 1)), Discount(m, n - 1), Discount(m, n));
    }
  }

  lemma RankedAhead(m: Maths, relevance: Grades, ids: seq<string>, ideal: seq<real>, k: nat)
    requires Lawful(m) && NonNegative(relevance) && NoDuplicates(ids) && IsIdeal(relevance, ideal)
    ensures Ahead(m, GradesOf(relevance, ids), ideal, k)
  {
    forall n: nat | n <= k ensures Lead(m, GradesOf(relevance, ids), ideal, n) >= 0.0 {
      PrefixDominance(m, relevance, ids, ideal, n);
    }
  }

  /** No ranking of distinct documents beats the ideal one. */
  lemma DcgAtMostIdeal(m: Maths, k: nat, ranked: seq<string>, relevance: Grades, ideal: seq<real>)
    requires Lawful(m) && NonNegative(relevance) && NoDuplicates(ranked) && IsIdeal(relevance, ideal)
    ensures 0.0 <= Dcg(m, Ranked(relevance, ranked, k), k) <= Dcg(m, Cut(ideal, k), k)
    ensures Dcg(m, Ranked(relevance, ranked, k), k) == Dcg(m, Cut(ideal, k), k) <==>
            forall i: nat :: i < k ==> At(Ranked(relevance, ranked, k), i) == At(ideal, i)
  {
    var ids := CutIds(ranked, k);
    var a := GradesOf(relevance, ids);
    DcgCut(m, Cut(ideal, k), ideal, k);
    DcgNonNegative(m, a, k);
    if k > 0 {
      RankedAhead(m, relevance, ids, ideal, k);
      SummationByParts(m, a, ideal, k);
      LeadPositive(m, a, ideal, k);
      if Dcg(m, a, k) == Dcg(m, ideal, k) {
        forall i: nat | i < k ensures At(a, i) == At(ideal, i) {
          IdealNonNegative(relevance, ideal, i);
          if At(a, i) <= At(ideal, i) { GainMonotone(m, At(a, i), At(ideal, i)); }
          else { GainMonotone(m, At(ideal, i), At(a, i)); }
        }
      }
      if forall i: nat :: i < k ==> At(a, i) == At(ideal, i) { DcgCut(m, a, ideal, k); }
    }
  }

  lemma LeadPositive(m: Maths, a: seq<real>, b: seq<real>, n: nat)
    requires Lawful(m) && n > 0 && Ahead(m, a, b, n)
    requires Discount(m, n - 1) > 0.0
    ensures Lead(m, a, b, n) / Discount(m, n - 1) >= 0.0
  {
    DiscountGrows(m, n - 1, n);
    DivideSmaller(Lead(m, a, b, n), Discount(m, n - 1), Discount(m, n));
  }

  /** For distinct documents and non-negative grades the score lies between 0 and 1. It is 1
      exactly when something is relevant and the grades found are the best ones, best first. */
  lemma NdcgBounded(m: Maths, k: nat, ranked: seq<string>, relevance: Grades, ideal: seq<real>)
    requires Lawful(m) && NonNegative(relevance) && NoDuplicates(ranked) && IsIdeal(relevance, ideal)
    ensures 0.0 <= Ndcg(m, k, ranked, relevance, ideal) <= 1.0
    ensures Ndcg(m, k, ranked, relevance, ideal) == 1.0 <==>
            && Dcg(m, Cut(ideal, k), k) > 0.0
            && forall i: nat :: i < k ==> At(Ranked(relevance, ranked, k), i) == At(ideal, i)
  {
    DcgAtMostIdeal(m, k, ranked, relevance, ideal);
    var x, y := Dcg(m, Ranked(relevance, ranked, k), k), Dcg(m, Cut(ideal, k), k);
    if y > 0.0 {
      Quotient(x, y);
    }
  }

  lemma Quotient(x: real, y: real)
    requires 0.0 <= x <= y && 0.0 < y
    ensures 0.0 <= x / y <= 1.0
    ensures x / y == 1.0 <==> x == y
  {
    var u := x / y;
    assert u * y == x;
    assert (u - 1.0) * y == x - y;
    ProductSign(u - 1.0, y);
    ProductSign(u, y);
  }

  // ----- Repeated ids -----

  lemma {:induction false} SizeOfIds(ids: seq<string>)
    ensures |ToSet(ids)| <= |ids|
  {
    if ids != [] {
      var n := |ids| - 1;
      SizeOfIds(ids[..n]);
      assert ids == ids[..n] + [ids[n]];
      assert ToSet(ids) == ToSet(ids[..n]) + {ids[n]};
    }
  }

  function Ones(n: nat): seq<real> {
    seq(n, _ => 1.0)
  }

  /** Judges these ids relevant, all alike. */
  function AllRelevant(ids: set<string>): Grades {
    map id | id in ids :: 1.0
  }

  /** The ideal list is then as many ones. */
  lemma OnesAreIdeal(ids: set<string>)
    ensures IsIdeal(AllRelevant(ids), Ones(|ids|))
  {
    var relevance := AllRelevant(ids);
    assert Holders(relevance, 1.0) == ids;
    forall v ensures multiset(Ones(|ids|))[v] == |Holders(relevance, v)| {
      OnesCount(|ids|, v);
      if v != 1.0 { assert Holders(relevance, v) == {}; }
    }
  }

  lemma {:induction false} OnesCount(n: nat, v: real)
    ensures multiset(Ones(n))[v] == if v == 1.0 then n else 0
  {
    if n > 0 {
      OnesCount(n - 1, v);
      assert Ones(n) == Ones(n - 1) + [1.0];
    }
  }

  /** Each further relevant document adds to the sum. */
  lemma {:induction false} DcgOnesGrows(m: Maths, s: seq<real>, d: nat, n: nat)
    requires Lawful(m) && d < n && forall i: nat :: i < n ==> At(s, i) == 1.0
    ensures 0.0 <= Dcg(m, s, d) < Dcg(m, s, n)
    ensures d > 0 ==> Dcg(m, s, d) > 0.0
  {
    assert m.pow2(0.0) < m.pow2(1.0);
    DiscountGrows(m, n - 1, n - 1);
    var g, q := Gain(m, 1.0), Discount(m, n - 1);
    assert g / q * q == g;
    ProductSign(g / q, q);
    if d < n - 1 {
      DcgOnesGrows(m, s, d, n - 1);
    } else if d > 0 {
      DcgOnesGrows(m, s, d - 1, d);
    }
  }

  lemma MoreOnesExceed(m: Maths, found: seq<real>, d: nat, k: nat)
    requires Lawful(m) && 0 < d < k && forall i: nat :: i < k ==> At(found, i) == 1.0
    ensures Dcg(m, Ones(d), k) > 0.0 && Dcg(m, found, k) / Dcg(m, Ones(d), k) > 1.0
  {
    DcgOnesGrows(m, found, d, k);
    DcgPadding(m, Ones(d), k);
    DcgCut(m, Ones(d), found, d);
    AboveOne(Dcg(m, found, k), Dcg(m, found, d));
  }

  /** With the id at position j ranked before, judging the first j + 1 ids relevant gives a score
      above 1 at cut-off j + 1. */
  lemma RepeatExceedsOne(m: Maths, ranked: seq<string>, i: nat, j: nat)
    requires Lawful(m) && i < j < |ranked| && ranked[i] == ranked[j]
    ensures var ids := ToSet(ranked[..j + 1]);
            IsIdeal(AllRelevant(ids), Ones(|ids|)) && Ndcg(m, j + 1, ranked, AllRelevant(ids), Ones(|ids|)) > 1.0
  {
    var ids, k := ToSet(ranked[..j + 1]), j + 1;
    assert ranked[..k] == ranked[..j] + [ranked[j]] && ranked[..j][i] == ranked[j];
    assert ids == ToSet(ranked[..j]);
    SizeOfIds(ranked[..j]);
    assert ranked[j] in ids;
    OnesAreIdeal(ids);
    forall p: nat | p < k ensures At(Ranked(AllRelevant(ids), ranked, k), p) == 1.0 { assert ranked[..k][p] in ids; }
    MoreOnesExceed(m, Ranked(AllRelevant(ids), ranked, k), |ids|, k);
  }

  lemma AboveOne(x: real, y: real)
    requires 0.0 < y < x
    ensures x / y > 1.0
  {
    var r := x / y;
    assert (r - 1.0) * y == x - y;
    ProductSign(r - 1.0, y);
  }

  /** The score of a ranking stays within 1 under all judgements and cut-offs if and only if the
      ranking repeats no id. */
  lemma BoundedIffDistinct(m: Maths, ranked: seq<string>)
    requires Lawful(m)
    ensures NoDuplicates(ranked) <==>
            forall k: nat, relevance, ideal :: NonNegative(relevance) && IsIdeal(relevance, ideal) ==>
              Ndcg(m, k, ranked, relevance, ideal) <= 1.0
  {
    if NoDuplicates(ranked) {
      forall k: nat, relevance, ideal | NonNegative(relevance) && IsIdeal(relevance, ideal)
        ensures Ndcg(m, k, ranked, relevance, ideal) <= 1.0
      {
        NdcgBounded(m, k, ranked, relevance, ideal);
      }
    } else {
      var i, j :| 0 <= i < j < |ranked| && ranked[i] == ranked[j];
      RepeatExceedsOne(m, ranked, i, j);
      assert NonNegative(AllRelevant(ToSet(ranked[..j + 1])));
    }
  }

  // ----- The loops -----

  function Swapped(s: seq<real>, j: nat): (r: seq<real>)
    requires 0 < j < |s|
    ensures |r| == |s|
  {
    s[j := s[j - 1]][j - 1 := s[j]]
  }

  /** The first i + 1 grades are in order once the one at j, on its way down, is left out. */
  ghost predicate Inserting(s: seq<real>, i: nat, j: nat) {
    j <= i < |s| && forall p, q :: 0 <= p < q <= i && q != j ==> s[p] >= s[q]
  }

  lemma InsertStep(s: seq<real>, i: nat, j: nat)
    requires Inserting(s, i, j) && j > 0 && s[j] > s[j - 1]
    ensures Inserting(Swapped(s, j), i, j - 1)
    ensures multiset(Swapped(s, j)) == multiset(s)
  {
  }

  lemma InsertDone(s: seq<real>, i: nat, j: nat)
    requires Inserting(s, i, j) && (j > 0 ==> s[j] <= s[j - 1])
    ensures Descending(s[..i + 1])
  {
    forall p, q | 0 <= p < q <= i ensures s[p] >= s[q] {
      if q == j && p < j - 1 { assert s[p] >= s[j - 1]; }
    }
  }

  /** Insertion sort, best grade first, in place. */
  method SortDescending(rels: array<real>)
    modifies rels
    ensures Descending(rels[..]) && multiset(rels[..]) == multiset(old(rels[..]))
  {
    for i := 1 to Max(1, rels.Length)
      invariant i <= rels.Length ==> Descending(rels[..i])
      invariant multiset(rels[..]) == multiset(old(rels[..]))
    {
      assert forall p, q :: 0 <= p < q < i ==> rels[p] == rels[..i][p] && rels[q] == rels[..i][q];
      var j := i;
      while j > 0 && rels[j] > rels[j - 1]
        invariant Inserting(rels[..], i, j)
        invariant multiset(rels[..]) == multiset(old(rels[..]))
      {
        InsertStep(rels[..], i, j);
        ghost var s := rels[..];
        rels[j], rels[j - 1] := rels[j - 1], rels[j];
        assert rels[..] == Swapped(s, j);
        j := j - 1;
      }
      InsertDone(rels[..], i, j);
      assert rels[..i + 1] == rels[..][..i + 1];
    }
    assert rels.Length > 0 ==> rels[..rels.Length] == rels[..];
  }

  /** The best k grades, best first; the judgements are read in no particular order. */
  method TopKRelevances(k: nat, relevance: Grades) returns (top: seq<real>, ghost ideal: seq<real>)
    ensures IsIdeal(relevance, ideal) && top == Cut(ideal, k)
  {
    var order := Range(relevance.Keys);
    var rels := new real[|order|];
    for i := 0 to |order|
      invariant forall j :: 0 <= j < i ==> rels[j] == GradeOf(relevance, order[j])
    {
      assert order[i] in relevance;
      rels[i] := relevance[order[i]];
    }
    assert rels[..] == GradesOf(relevance, order);
    SortDescending(rels);
    ideal := rels[..];
    AllGrades(relevance, order, ideal);
    top := if rels.Length > k then rels[..k] else rels[..];
  }

  lemma AllGrades(relevance: Grades, order: seq<string>, ideal: seq<real>)
    requires NoDuplicates(order) && forall id :: id in order <==> id in relevance
    requires Descending(ideal) && multiset(ideal) == multiset(GradesOf(relevance, order))
    ensures IsIdeal(relevance, ideal)
  {
    forall v ensures multiset(ideal)[v] == |Holders(relevance, v)| {
      GradeCount(relevance, order, v);
      assert ValuesOf(relevance, ToSet(order), v) == Holders(relevance, v);
    }
  }

  lemma {:induction false} DcgPadding(m: Maths, s: seq<real>, n: nat)
    requires Lawful(m) && |s| <= n
    ensures Dcg(m, s, n) == Dcg(m, s, |s|)
  {
    if n > |s| {
      DcgPadding(m, s, n - 1);
      DiscountGrows(m, n - 1, n - 1);
    }
  }

  method DiscountedGain(m: Maths, grades: seq<real>) returns (sum: real)
    requires Lawful(m)
    ensures sum == Dcg(m, grades, |grades|)
  {
    sum := 0.0;
    for i := 0 to |grades|
      invariant sum == Dcg(m, grades, i)
    {
      DiscountGrows(m, i, i);
      if grades[i] != 0.0 {
        sum := sum + (m.pow2(grades[i]) - 1.0) / m.log2((i + 2) as real);
      }
    }
  }

  method NDCGAt(m: Maths, k: int, ranked: seq<string>, relevance: Grades) returns (r: real)
    requires Lawful(m)
    ensures forall ideal :: IsIdeal(relevance, ideal) ==> r == Ndcg(m, k, ranked, relevance, ideal)
    ensures k <= 0 ==> r == 0.0
    ensures k > 0 ==> forall ideal :: IsIdeal(relevance, ideal) ==>
              if BestGain(m, ideal, k) == 0.0 then r == 0.0
              else r == RankedGain(m, ranked, relevance, k) / BestGain(m, ideal, k)
    ensures NonNegative(relevance) && NoDuplicates(ranked) ==> 0.0 <= r <= 1.0
  {
    if k <= 0 { return 0.0; }
    var dcg := DiscountedGain(m, Ranked(relevance, ranked, k));
    var top, ideal := TopKRelevances(k, relevance);
    var idcg := DiscountedGain(m, top);
    r := if idcg == 0.0 then 0.0 else dcg / idcg;
    DcgPadding(m, Ranked(relevance, ranked, k), k);
    DcgPadding(m, top, k);
    if NonNegative(relevance) && NoDuplicates(ranked) { NdcgBounded(m, k, ranked, relevance, ideal); }
    NdcgMeans(m, k, ranked, relevance, ideal);
    forall other | IsIdeal(relevance, other) ensures other == ideal { IdealUnique(relevance, other, ideal); }
  }

  // ----- Recall -----

  ghost function RelevantIds(relevance: Grades): set<string> {
    set id | id in relevance && relevance[id] > 0.0
  }

  ghost function FoundIds(ranked: seq<string>, relevance: Grades): set<string> {
    set id | id in ranked && id in relevance && relevance[id] > 0.0
  }

  function Hits(ranked: seq<string>, relevance: Grades): nat {
    |Filter(ranked, (id: string) => GradeOf(relevance, id) > 0.0)|
  }

  lemma {:induction false} HitsAreFound(ranked: seq<string>, relevance: Grades)
    requires NoDuplicates(ranked)
    ensures Hits(ranked, relevance) == |FoundIds(ranked, relevance)|
  {
    if ranked == [] {
      assert FoundIds(ranked, relevance) == {};
    } else {
      var id := ranked[0];
      HitsAreFound(ranked[1..], relevance);
      assert ranked == [id] + ranked[1..];
      if GradeOf(relevance, id) > 0.0 {
        assert FoundIds(ranked, relevance) == FoundIds(ranked[1..], relevance) + {id};
      } else {
        assert FoundIds(ranked, relevance) == FoundIds(ranked[1..], relevance);
      }
    }
  }

  lemma FoundWithin(ranked: seq<string>, relevance: Grades)
    requires NoDuplicates(ranked)
    ensures Hits(ranked, relevance) <= |RelevantIds(relevance)|
    ensures Hits(ranked, relevance) == |RelevantIds(relevance)|
      <==> forall id :: id in RelevantIds(relevance) ==> id in ranked
  {
    HitsAreFound(ranked, relevance);
    CardinalityOfPart(FoundIds(ranked, relevance), RelevantIds(relevance));
    if forall id :: id in RelevantIds(relevance) ==> id in ranked {
      assert FoundIds(ranked, relevance) == RelevantIds(relevance);
    }
  }

  /** Judging all of the first ids relevant, every one of them is a hit, repeated or not. */
  lemma AllAreHits(ids: seq<string>)
    ensures Hits(ids, AllRelevant(ToSet(ids))) == |ids|
    ensures RelevantIds(AllRelevant(ToSet(ids))) == ToSet(ids)
  {
    var relevance := AllRelevant(ToSet(ids));
    forall i | 0 <= i < |ids| ensures GradeOf(relevance, ids[i]) > 0.0 { assert ids[i] in relevance; }
    FilterAll(ids, (id: string) => GradeOf(relevance, id) > 0.0);
  }

  /** No more hits than relevant documents under all judgements and cut-offs if and only if the
      ranking repeats no id. */
  lemma RecallBoundedIffDistinct(ranked: seq<string>)
    ensures NoDuplicates(ranked) <==>
            forall k: nat, relevance :: Hits(CutIds(ranked, k), relevance) <= |RelevantIds(relevance)|
  {
    if NoDuplicates(ranked) {
      forall k: nat, relevance ensures Hits(CutIds(ranked, k), relevance) <= |RelevantIds(relevance)| {
        FoundWithin(CutIds(ranked, k), relevance);
      }
    } else {
      var i, j :| 0 <= i < j < |ranked| && ranked[i] == ranked[j];
      var k := j + 1;
      var first := ranked[..k];
      assert first == CutIds(ranked, k);
      AllAreHits(first);
      assert first == ranked[..j] + [ranked[j]] && ranked[..j][i] == ranked[j];
      assert ToSet(first) == ToSet(ranked[..j]);
      SizeOfIds(ranked[..j]);
      assert Hits(CutIds(ranked, k), AllRelevant(ToSet(first))) > |RelevantIds(AllRelevant(ToSet(first)))|;
    }
  }

  /** The share of relevant documents among the first k; 1 exactly when all of them are there. */
  method RecallAt(k: int, ranked: seq<string>, relevance: Grades) returns (r: real)
    ensures k <= 0 || RelevantIds(relevance) == {} ==> r == 0.0
    ensures k > 0 && RelevantIds(relevance) != {} ==>
              r == Hits(CutIds(ranked, k), relevance) as real / |RelevantIds(relevance)| as real
    ensures NoDuplicates(ranked) ==> 0.0 <= r <= 1.0
    ensures NoDuplicates(ranked) && k > 0 && RelevantIds(relevance) != {} ==>
              r == |FoundIds(ranked[..Min(k, |ranked|)], relevance)| as real / |RelevantIds(relevance)| as real
    ensures NoDuplicates(ranked) && k > 0 && RelevantIds(relevance) != {} ==>
              (r == 1.0 <==> forall id :: id in RelevantIds(relevance) ==> id in CutIds(ranked, k))
  {
    if k <= 0 { return 0.0; }
    var judged := Range(relevance.Keys);
    var total := CountHits(judged, relevance);
    HitsAreFound(judged, relevance);
    assert FoundIds(judged, relevance) == RelevantIds(relevance);
    if total == 0 { return 0.0; }
    var first := CutIds(ranked, k);
    var hit := CountHits(first, relevance);
    r := hit as real / total as real;
    assert first == ranked[..Min(k, |ranked|)];
    if NoDuplicates(ranked) {
      FoundWithin(first, relevance);
      HitsAreFound(first, relevance);
      Quotient(hit as real, total as real);
    }
  }

  method CountHits(ids: seq<string>, relevance: Grades) returns (hit: nat)
    ensures hit == Hits(ids, relevance)
  {
    hit := 0;
    for i := 0 to |ids|
      invariant hit == Hits(ids[..i], relevance)
    {
      assert ids[..i + 1] == ids[..i] + [ids[i]];
      FilterAppend(ids[..i], [ids[i]], (id: string) => GradeOf(relevance, id) > 0.0);
      if GradeOf(relevance, ids[i]) > 0.0 { hit := hit + 1; }
    }
    assert ids[..|ids|] == ids;
  }
}
