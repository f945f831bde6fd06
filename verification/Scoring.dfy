/** From scored chunks to scored documents. */
module Scoring {
  import opened Sequences
  import opened Domain

  datatype VectorHit = VectorHit(ref: NoteRef, id: string, chunk: int, score: real, body: string)

  const BONUS_THRESHOLD: real := 0.6
  const BONUS_WEIGHT: real := 0.1

  function MinReal(x: real, y: real): real {
    if x < y then x else y
  }

  // ----- One document -----

  /** The first hit of the highest score. */
  function Best(s: seq<VectorHit>): (b: VectorHit)
    requires s != []
    ensures b in s
    ensures forall i :: 0 <= i < |s| ==> s[i].score <= b.score
  {
    if |s| == 1 then s[0]
    else
      var b := Best(s[..|s| - 1]);
      if s[|s| - 1].score > b.score then s[|s| - 1] else b
  }

  ghost function Weigh(s: seq<VectorHit>, w: VectorHit -> real): real {
    if s == [] then 0.0 else Weigh(s[..|s| - 1], w) + w(s[|s| - 1])
  }

  function Qualifying(h: VectorHit): real {
    if h.score >= BONUS_THRESHOLD then h.score else 0.0
  }

  function OutsideChunk(c: int): VectorHit -> real {
    (h: VectorHit) => if h.chunk == c then 0.0 else Qualifying(h)
  }

  ghost function Bonus(s: seq<VectorHit>, c: int): real {
    Weigh(s, OutsideChunk(c))
  }

  function Capped(top: real, bonus: real): real {
    MinReal(top + BONUS_WEIGHT * bonus, 1.0)
  }

  ghost function DocScore(s: seq<VectorHit>): real
    requires s != []
  {
    Capped(Best(s).score, Bonus(s, Best(s).chunk))
  }

  ghost predicate DistinctChunks(s: seq<VectorHit>) {
    forall i, j :: 0 <= i < j < |s| ==> s[i].chunk != s[j].chunk
  }

  // ----- Weights do not see the order -----

  lemma {:induction false} WeighAppend(a: seq<VectorHit>, b: seq<VectorHit>, w: VectorHit -> real)
    ensures Weigh(a + b, w) == Weigh(a, w) + Weigh(b, w)
  {
    if b == [] {
      assert a + b == a;
    } else {
      assert (a + b)[..|a + b| - 1] == a + b[..|b| - 1];
      WeighAppend(a, b[..|b| - 1], w);
    }
  }

  lemma WeighOne(h: VectorHit, w: VectorHit -> real)
    ensures Weigh([h], w) == w(h)
  {
    assert Weigh([h][..0], w) == 0.0;
  }

  lemma WeighInsert(p: seq<VectorHit>, h: VectorHit, r: seq<VectorHit>, w: VectorHit -> real)
    ensures Weigh(p + [h] + r, w) == Weigh(p + r, w) + w(h)
  {
    WeighAppend(p + [h], r, w);
    WeighAppend(p, [h], w);
    WeighAppend(p, r, w);
    WeighOne(h, w);
  }

  lemma SameBagWithout(a: seq<VectorHit>, p: seq<VectorHit>, h: VectorHit, r: seq<VectorHit>)
    requires multiset(a + [h]) == multiset(p + [h] + r)
    ensures multiset(a) == multiset(p + r)
  {
    assert multiset(a) == multiset(a + [h]) - multiset{h};
    assert multiset(p + r) == multiset(p + [h] + r) - multiset{h};
  }

  lemma {:induction false} WeighPermuted(a: seq<VectorHit>, b: seq<VectorHit>, w: VectorHit -> real)
    requires multiset(a) == multiset(b)
    ensures Weigh(a, w) == Weigh(b, w)
    decreases |a|
  {
    assert |a| == |multiset(a)| == |multiset(b)| == |b|;
    if a != [] {
      var a', h := a[..|a| - 1], a[|a| - 1];
      assert a == a' + [h];
      assert h in multiset(b);
      var i :| 0 <= i < |b| && b[i] == h;
      assert b == b[..i] + [h] + b[i + 1..];
      SameBagWithout(a', b[..i], h, b[i + 1..]);
      WeighPermuted(a', b[..i] + b[i + 1..], w);
      WeighInsert(b[..i], h, b[i + 1..], w);
    }
  }

  lemma BestPermuted(a: seq<VectorHit>, b: seq<VectorHit>)
    requires a != [] && b != [] && multiset(a) == multiset(b)
    ensures Best(a).score == Best(b).score && Best(b) in a
  {
    assert Best(a) in multiset(b) && Best(b) in multiset(a);
  }

  /** A hit placed first wins every tie. */
  lemma {:induction false} BestIsFirst(h: VectorHit, s: seq<VectorHit>)
    requires forall i :: 0 <= i < |s| ==> s[i].score <= h.score
    ensures Best([h] + s) == h
  {
    if s != [] {
      assert ([h] + s)[..|s|] == [h] + s[..|s| - 1];
      BestIsFirst(h, s[..|s| - 1]);
    }
  }

  ghost predicate Maximal(s: seq<VectorHit>, i: int) {
    0 <= i < |s| && forall j :: 0 <= j < |s| ==> s[j].score <= s[i].score
  }

  ghost predicate ScoresAgree(s: seq<VectorHit>) {
    forall i, j :: Maximal(s, i) && Maximal(s, j) ==>
      Capped(s[i].score, Bonus(s, s[i].chunk)) == Capped(s[j].score, Bonus(s, s[j].chunk))
  }

  ghost predicate OrderIrrelevant(s: seq<VectorHit>)
    requires s != []
  {
    forall t: seq<VectorHit> :: t != [] && multiset(t) == multiset(s) ==> DocScore(t) == DocScore(s)
  }

  lemma FrontScore(p: seq<VectorHit>, h: VectorHit, r: seq<VectorHit>)
    requires forall i :: 0 <= i < |p + r| ==> (p + r)[i].score <= h.score
    ensures multiset([h] + (p + r)) == multiset(p + [h] + r)
    ensures DocScore([h] + (p + r)) == Capped(h.score, Bonus(p + [h] + r, h.chunk))
  {
    BestIsFirst(h, p + r);
    WeighPermuted(p + [h] + r, [h] + (p + r), OutsideChunk(h.chunk));
  }

  lemma MaximalScore(s: seq<VectorHit>, i: int)
    requires s != [] && OrderIrrelevant(s) && Maximal(s, i)
    ensures DocScore(s) == Capped(s[i].score, Bonus(s, s[i].chunk))
  {
    var p, h, r := s[..i], s[i], s[i + 1..];
    assert s == p + [h] + r;
    forall k | 0 <= k < |p + r| ensures (p + r)[k].score <= h.score {
      assert (p + r)[k] == if k < i then s[k] else s[k + 1];
    }
    FrontScore(p, h, r);
    assert [h] + (p + r) != [];
  }

  /** Any hit of the highest score could have come first, and would then be the one skipped. */
  lemma OrderIrrelevantScores(s: seq<VectorHit>)
    requires s != []
    ensures OrderIrrelevant(s) <==> ScoresAgree(s)
  {
    if OrderIrrelevant(s) {
      forall i, j | Maximal(s, i) && Maximal(s, j)
        ensures Capped(s[i].score, Bonus(s, s[i].chunk)) == Capped(s[j].score, Bonus(s, s[j].chunk))
      {
        MaximalScore(s, i);
        MaximalScore(s, j);
      }
    }
    if ScoresAgree(s) {
      forall t: seq<VectorHit> | t != [] && multiset(t) == multiset(s) ensures DocScore(t) == DocScore(s) {
        BestPermuted(s, t);
        var i :| 0 <= i < |s| && s[i] == Best(s);
        var j :| 0 <= j < |s| && s[j] == Best(t);
        assert Maximal(s, i) && Maximal(s, j);
        WeighPermuted(s, t, OutsideChunk(Best(t).chunk));
      }
    }
  }

  // ----- What a chunk weighs -----

  function InChunk(c: int): VectorHit -> real {
    (h: VectorHit) => if h.chunk == c then Qualifying(h) else 0.0
  }

  ghost function AllQualifying(s: seq<VectorHit>): real {
    Weigh(s, Qualifying)
  }

  /** The qualifying scores of one chunk's hits. */
  ghost function ChunkWeight(s: seq<VectorHit>, c: int): real {
    Weigh(s, InChunk(c))
  }

  lemma {:induction false} BonusIsRest(s: seq<VectorHit>, c: int)
    ensures Bonus(s, c) == AllQualifying(s) - ChunkWeight(s, c)
    ensures 0.0 <= ChunkWeight(s, c) && 0.0 <= Bonus(s, c)
  {
    if s != [] { BonusIsRest(s[..|s| - 1], c); }
  }

  /** All chunks that hold a hit of the highest score weigh the same. */
  ghost predicate TiedChunksWeighSame(s: seq<VectorHit>) {
    forall i, j :: Maximal(s, i) && Maximal(s, j) ==> ChunkWeight(s, s[i].chunk) == ChunkWeight(s, s[j].chunk)
  }

  /** The other chunks bring every hit of the highest score up to 1. */
  ghost predicate TiesReachCap(s: seq<VectorHit>) {
    forall i :: Maximal(s, i) ==> s[i].score + BONUS_WEIGHT * (AllQualifying(s) - ChunkWeight(s, s[i].chunk)) >= 1.0
  }

  lemma ScoresAgreeIff(s: seq<VectorHit>)
    requires s != []
    ensures ScoresAgree(s) <==> TiedChunksWeighSame(s) || TiesReachCap(s)
  {
    forall i | 0 <= i < |s| ensures Bonus(s, s[i].chunk) == AllQualifying(s) - ChunkWeight(s, s[i].chunk) {
      BonusIsRest(s, s[i].chunk);
    }
    if ScoresAgree(s) && !TiesReachCap(s) {
      var i :| Maximal(s, i) && s[i].score + BONUS_WEIGHT * (AllQualifying(s) - ChunkWeight(s, s[i].chunk)) < 1.0;
      assert forall j :: Maximal(s, j) ==> ChunkWeight(s, s[j].chunk) == ChunkWeight(s, s[i].chunk);
    }
  }

  /** A document's score ignores the order of its hits exactly when the chunks of the hits tied
      for the highest score weigh the same, or the others lift every tied hit to the cap. */
  lemma OrderIrrelevantIff(s: seq<VectorHit>)
    requires s != []
    ensures OrderIrrelevant(s) <==> TiedChunksWeighSame(s) || TiesReachCap(s)
  {
    OrderIrrelevantScores(s);
    ScoresAgreeIff(s);
  }

  // ----- Distinct chunks -----

  lemma {:induction false} ChunkElsewhere(s: seq<VectorHit>, c: int)
    requires forall i :: 0 <= i < |s| ==> s[i].chunk != c
    ensures ChunkWeight(s, c) == 0.0
  {
    if s != [] { ChunkElsewhere(s[..|s| - 1], c); }
  }

  /** With distinct chunks, a chunk weighs what its one hit does. */
  lemma OneHitWeight(s: seq<VectorHit>, h: VectorHit)
    requires DistinctChunks(s) && h in s
    ensures ChunkWeight(s, h.chunk) == Qualifying(h)
  {
    var i :| 0 <= i < |s| && s[i] == h;
    var rest := s[..i] + s[i + 1..];
    assert s == s[..i] + [h] + s[i + 1..];
    WeighInsert(s[..i], h, s[i + 1..], InChunk(h.chunk));
    forall j | 0 <= j < |rest| ensures rest[j].chunk != h.chunk {
      assert rest[j] == if j < i then s[j] else s[j + 1];
    }
    ChunkElsewhere(rest, h.chunk);
  }

  /** The published formula: the maximum plus a tenth of the other qualifying scores, capped. */
  lemma ScoreFormula(s: seq<VectorHit>)
    requires s != [] && DistinctChunks(s)
    ensures DocScore(s) == MinReal(Best(s).score + BONUS_WEIGHT * (AllQualifying(s) - Qualifying(Best(s))), 1.0)
    ensures DocScore(s) == MinReal(Best(s).score + OtherChunks(s, Best(s).chunk) / 10.0, 1.0)
  {
    BonusIsOthers(s, Best(s).chunk);
    OneHitWeight(s, Best(s));
    BonusIsRest(s, Best(s).chunk);
  }

  lemma DistinctChunksOrderIrrelevant(s: seq<VectorHit>)
    requires s != [] && DistinctChunks(s)
    ensures OrderIrrelevant(s)
  {
    forall i, j | Maximal(s, i) && Maximal(s, j) ensures ChunkWeight(s, s[i].chunk) == ChunkWeight(s, s[j].chunk) {
      OneHitWeight(s, s[i]);
      OneHitWeight(s, s[j]);
    }
    OrderIrrelevantIff(s);
  }

  // ----- A further hit -----

  /** By how much a new best hit must be better: its own chunk no longer adds to the score, the
      old best one's chunk does. */
  ghost predicate HeldBack(s: seq<VectorHit>, h: VectorHit)
    requires s != []
  {
    && h.score > Best(s).score
    && h.score + BONUS_WEIGHT * (AllQualifying(s) - ChunkWeight(s, h.chunk)) < 1.0
    && BONUS_WEIGHT * (ChunkWeight(s, h.chunk) - ChunkWeight(s, Best(s).chunk)) > h.score - Best(s).score
  }

  /** A further hit lowers the document's score exactly when it becomes the best one, stays under
      the cap, and its chunk outweighs the old best one's by ten times what it gains. */
  lemma AddHitLowersIff(s: seq<VectorHit>, h: VectorHit)
    requires s != []
    ensures DocScore(s + [h]) < DocScore(s) <==> HeldBack(s, h)
  {
    assert (s + [h])[..|s|] == s;
    var c := Best(s + [h]).chunk;
    WeighAppend(s, [h], OutsideChunk(c));
    WeighOne(h, OutsideChunk(c));
    BonusIsRest(s, h.chunk);
    BonusIsRest(s, Best(s).chunk);
  }

  /** A hit in a chunk of its own never lowers the document's score. */
  lemma AddHitNeverLowers(s: seq<VectorHit>, h: VectorHit)
    requires s != [] && forall i :: 0 <= i < |s| ==> s[i].chunk != h.chunk
    ensures DocScore(s + [h]) >= DocScore(s)
  {
    AddHitLowersIff(s, h);
    ChunkElsewhere(s, h.chunk);
    BonusIsRest(s, Best(s).chunk);
  }

  lemma WeighThree(a: VectorHit, b: VectorHit, c: VectorHit, w: VectorHit -> real)
    ensures Weigh([a] + [b, c], w) == w(a) + w(b) + w(c)
  {
    WeighAppend([a], [b, c], w);
    assert [b, c] == [b] + [c];
    WeighAppend([b], [c], w);
    WeighOne(a, w);
    WeighOne(b, w);
    WeighOne(c, w);
  }

  lemma ScoreOfThree(a: VectorHit, b: VectorHit, c: VectorHit)
    requires b.score <= a.score && c.score <= a.score
    ensures DocScore([a] + [b, c]) == Capped(a.score, OutsideChunk(a.chunk)(b) + OutsideChunk(a.chunk)(c))
  {
    BestIsFirst(a, [b, c]);
    WeighThree(a, b, c, OutsideChunk(a.chunk));
  }

  /** A better hit in a chunk that already weighs more can lower the score. */
  lemma BetterHitCanLower(ref: NoteRef)
    ensures exists s: seq<VectorHit>, h: VectorHit ::
              s != [] && h.score > Best(s).score && DocScore(s + [h]) < DocScore(s)
  {
    var a := VectorHit(ref, "", 0, 0.6, "");
    var b := VectorHit(ref, "", 1, 0.6, "");
    var h := VectorHit(ref, "", 1, 0.61, "");
    var s := [a] + [b, b];
    BestIsFirst(a, [b, b]);
    WeighThree(a, b, b, Qualifying);
    WeighThree(a, b, b, InChunk(0));
    WeighThree(a, b, b, InChunk(1));
    AddHitLowersIff(s, h);
  }

  /** Repeated chunks are what order independence rules out: two chunks tie for the maximum,
      and the one met first takes its own second hit out of the bonus. */
  lemma RepeatedChunkSeesOrder(ref: NoteRef)
    ensures exists s: seq<VectorHit>, t: seq<VectorHit> ::
              s != [] && t != [] && multiset(s) == multiset(t) && DocScore(s) != DocScore(t)
  {
    var a := VectorHit(ref, "", 0, 0.6, "");
    var b := VectorHit(ref, "", 1, 0.6, "");
    var c := VectorHit(ref, "", 1, 0.6, "again");
    ScoreOfThree(a, b, c);
    ScoreOfThree(b, c, a);
    assert multiset([a] + [b, c]) == multiset([b] + [c, a]);
  }

  // ----- All documents -----

  function OfRef(r: NoteRef): VectorHit -> bool {
    (h: VectorHit) => h.ref == r
  }

  function HitsOf(hits: seq<VectorHit>, r: NoteRef): seq<VectorHit> {
    Filter(hits, OfRef(r))
  }

  predicate HasRef(hits: seq<VectorHit>, r: NoteRef) {
    exists i :: 0 <= i < |hits| && hits[i].ref == r
  }

  /** One entry per document, best first: the chunk of the highest score with the document's
      score in place of its own. */
  ghost predicate IsAggregate(hits: seq<VectorHit>, out: seq<VectorHit>) {
    && (forall i :: 0 <= i < |out| ==> HitsOf(hits, out[i].ref) != [] && out[i] == DocHit(HitsOf(hits, out[i].ref)))
    && (forall i, j :: 0 <= i < j < |out| ==> out[i].ref != out[j].ref)
    && (forall i, j :: 0 <= i < j < |out| ==> out[i].score >= out[j].score)
    && (forall k :: 0 <= k < |hits| ==> HasRef(out, hits[k].ref))
  }

  ghost function DocHit(s: seq<VectorHit>): VectorHit
    requires s != []
  {
    Best(s).(score := DocScore(s))
  }

  /** Hits that arrive in another order give a document the same score whenever its ties agree. */
  lemma AggregatesAgree(hits: seq<VectorHit>, hits': seq<VectorHit>, out: seq<VectorHit>, out': seq<VectorHit>, i: nat,
                        j: nat)
    requires multiset(hits) == multiset(hits') && IsAggregate(hits, out) && IsAggregate(hits', out')
    requires i < |out| && j < |out'| && out[i].ref == out'[j].ref
    requires var s := HitsOf(hits, out[i].ref); TiedChunksWeighSame(s) || TiesReachCap(s)
    ensures out[i].score == out'[j].score
  {
    var r := out[i].ref;
    FilterMultiset(hits, hits', OfRef(r));
    OrderIrrelevantIff(HitsOf(hits, r));
  }

  /** Whatever the arrival order of all the hits, the document's score is the same. */
  ghost predicate ArrivalIrrelevant(hits: seq<VectorHit>, r: NoteRef)
    requires HitsOf(hits, r) != []
  {
    forall hits': seq<VectorHit> :: multiset(hits') == multiset(hits) && HitsOf(hits', r) != [] ==>
      DocScore(HitsOf(hits', r)) == DocScore(HitsOf(hits, r))
  }

  /** One document's hits can arrive in any order among the others'. */
  lemma Rearranged(hits: seq<VectorHit>, r: NoteRef, t: seq<VectorHit>) returns (hits': seq<VectorHit>)
    requires multiset(t) == multiset(HitsOf(hits, r))
    ensures multiset(hits') == multiset(hits) && HitsOf(hits', r) == t
  {
    var other := (h: VectorHit) => h.ref != r;
    var others := Filter(hits, other);
    hits' := t + others;
    forall h | h in t ensures h.ref == r {
      assert h in multiset(t);
      FilterMember(hits, OfRef(r), h);
    }
    FilterAll(t, OfRef(r));
    forall i | 0 <= i < |others| ensures !OfRef(r)(others[i]) {
      FilterMember(hits, other, others[i]);
    }
    FilterNone(others, OfRef(r));
    FilterAppend(t, others, OfRef(r));
    forall h ensures multiset(hits')[h] == multiset(hits)[h] {
      FilterCount(hits, OfRef(r), h);
      FilterCount(hits, other, h);
    }
  }

  /** The ranking of a document depends on the arrival order exactly when its ties disagree. */
  lemma ArrivalIrrelevantIff(hits: seq<VectorHit>, r: NoteRef)
    requires HitsOf(hits, r) != []
    ensures var s := HitsOf(hits, r); ArrivalIrrelevant(hits, r) <==> TiedChunksWeighSame(s) || TiesReachCap(s)
  {
    var s := HitsOf(hits, r);
    OrderIrrelevantIff(s);
    if OrderIrrelevant(s) {
      forall hits': seq<VectorHit> | multiset(hits') == multiset(hits) && HitsOf(hits', r) != []
        ensures DocScore(HitsOf(hits', r)) == DocScore(s)
      {
        FilterMultiset(hits, hits', OfRef(r));
      }
    }
    if ArrivalIrrelevant(hits, r) {
      forall t: seq<VectorHit> | t != [] && multiset(t) == multiset(s) ensures DocScore(t) == DocScore(s) {
        var hits' := Rearranged(hits, r, t);
      }
    }
  }

  /** A further hit lowers one document's score at most: its own, when it is held back there. */
  lemma AddHitLowersOnly(hits: seq<VectorHit>, h: VectorHit, r: NoteRef)
    requires HitsOf(hits, r) != []
    ensures HitsOf(hits + [h], r) != []
    ensures DocScore(HitsOf(hits + [h], r)) < DocScore(HitsOf(hits, r)) <==> h.ref == r && HeldBack(HitsOf(hits, r), h)
  {
    FilterAppend(hits, [h], OfRef(r));
    if h.ref == r {
      assert HitsOf([h], r) == [h];
      AddHitLowersIff(HitsOf(hits, r), h);
    } else {
      assert HitsOf(hits + [h], r) == HitsOf(hits, r);
    }
  }

  // ----- The published score, written out -----

  /** The scores of at least 0.6 outside a chunk. */
  ghost function OtherChunks(s: seq<VectorHit>, c: int): real {
    if s == [] then 0.0
    else
      var h := s[|s| - 1];
      OtherChunks(s[..|s| - 1], c) + if h.chunk != c && h.score >= 0.6 then h.score else 0.0
  }

  lemma {:induction false} BonusIsOthers(s: seq<VectorHit>, c: int)
    ensures Bonus(s, c) == OtherChunks(s, c)
  {
    if s != [] { BonusIsOthers(s[..|s| - 1], c); }
  }

  /** Hit m is the first of the highest score, and e shows it with the published score. */
  ghost predicate PublishedAt(s: seq<VectorHit>, e: VectorHit, m: int) {
    && 0 <= m < |s| && (forall j :: 0 <= j < |s| ==> s[j].score <= s[m].score)
    && (forall j :: 0 <= j < m ==> s[j].score < s[m].score)
    && var raw := s[m].score + OtherChunks(s, s[m].chunk) / 10.0;
       e == s[m].(score := if raw < 1.0 then raw else 1.0)
  }

  lemma {:induction false} BestAt(s: seq<VectorHit>) returns (m: nat)
    requires s != []
    ensures m < |s| && s[m] == Best(s) && (forall j :: 0 <= j < |s| ==> s[j].score <= s[m].score)
    ensures forall j :: 0 <= j < m ==> s[j].score < s[m].score
  {
    var n := |s| - 1;
    if n == 0 {
      m := 0;
    } else {
      m := BestAt(s[..n]);
      if s[n].score > s[m].score { m := n; }
    }
  }

  ghost predicate Published(s: seq<VectorHit>, e: VectorHit) {
    exists m :: PublishedAt(s, e, m)
  }

  lemma DocHitPublished(s: seq<VectorHit>)
    requires s != []
    ensures Published(s, DocHit(s))
  {
    var m := BestAt(s);
    BonusIsOthers(s, s[m].chunk);
    assert PublishedAt(s, DocHit(s), m);
  }

  /** Every entry shows its document's first best hit with the published score. */
  ghost predicate AllPublished(hits: seq<VectorHit>, out: seq<VectorHit>) {
    forall i :: 0 <= i < |out| ==> Published(HitsOf(hits, out[i].ref), out[i])
  }

  lemma AggregatePublished(hits: seq<VectorHit>, out: seq<VectorHit>)
    requires IsAggregate(hits, out)
    ensures AllPublished(hits, out)
  {
    forall i | 0 <= i < |out| ensures Published(HitsOf(hits, out[i].ref), out[i]) {
      DocHitPublished(HitsOf(hits, out[i].ref));
    }
  }

  // ----- The loops -----

  datatype Group = Group(chunk: VectorHit, sum: real)

  ghost predicate Grouped(hits: seq<VectorHit>, byRef: map<NoteRef, Group>) {
    && (forall k :: 0 <= k < |hits| ==> hits[k].ref in byRef)
    && (forall r :: r in byRef ==> HitsOf(hits, r) != [] && byRef[r].chunk == Best(HitsOf(hits, r)))
  }

  lemma HitsOfStep(hits: seq<VectorHit>, i: nat, r: NoteRef)
    requires i < |hits|
    ensures hits[i].ref == r ==> HitsOf(hits[..i + 1], r) == HitsOf(hits[..i], r) + [hits[i]]
    ensures hits[i].ref != r ==> HitsOf(hits[..i + 1], r) == HitsOf(hits[..i], r)
  {
    assert hits[..i + 1] == hits[..i] + [hits[i]];
    FilterAppend(hits[..i], [hits[i]], OfRef(r));
  }

  lemma HitsOfNone(hits: seq<VectorHit>, r: NoteRef)
    requires forall k :: 0 <= k < |hits| ==> hits[k].ref != r
    ensures HitsOf(hits, r) == []
  {
    FilterNone(hits, OfRef(r));
  }

  lemma HitsOfRef(hits: seq<VectorHit>, r: NoteRef, h: VectorHit)
    requires h in HitsOf(hits, r)
    ensures h.ref == r
  {
    FilterMember(hits, OfRef(r), h);
  }

  /** Entering one more hit keeps every group's best hit. */
  lemma GroupStep(hits: seq<VectorHit>, i: nat, byRef: map<NoteRef, Group>, g: Group)
    requires i < |hits| && Grouped(hits[..i], byRef)
    requires g.chunk == if hits[i].ref !in byRef || hits[i].score > byRef[hits[i].ref].chunk.score then hits[i]
                        else byRef[hits[i].ref].chunk
    ensures Grouped(hits[..i + 1], byRef[hits[i].ref := g])
  {
    var h := hits[i];
    var byRef' := byRef[h.ref := g];
    var upTo := hits[..i + 1];
    forall k | 0 <= k < |upTo| ensures upTo[k].ref in byRef' {
      if k < i { assert hits[..i][k].ref in byRef; }
    }
    forall r | r in byRef'
      ensures HitsOf(hits[..i + 1], r) != [] && byRef'[r].chunk == Best(HitsOf(hits[..i + 1], r))
    {
      HitsOfStep(hits, i, r);
      if r == h.ref {
        if h.ref !in byRef { HitsOfNone(hits[..i], r); }
        assert HitsOf(hits[..i + 1], r)[..|HitsOf(hits[..i], r)|] == HitsOf(hits[..i], r);
      }
    }
  }

  ghost predicate Summed(hits: seq<VectorHit>, byRef: map<NoteRef, Group>) {
    forall r :: r in byRef ==> byRef[r].sum == Bonus(HitsOf(hits, r), byRef[r].chunk.chunk)
  }

  lemma SumStep(hits: seq<VectorHit>, i: nat, byRef: map<NoteRef, Group>, g: Group)
    requires i < |hits| && hits[i].ref in byRef && Summed(hits[..i], byRef)
    requires g
      == Group(byRef[hits[i].ref].chunk, byRef[hits[i].ref].sum + OutsideChunk(byRef[hits[i].ref].chunk.chunk)(hits[i]))
    ensures Summed(hits[..i + 1], byRef[hits[i].ref := g])
  {
    var byRef' := byRef[hits[i].ref := g];
    forall r | r in byRef' ensures byRef'[r].sum == Bonus(HitsOf(hits[..i + 1], r), byRef'[r].chunk.chunk) {
      HitsOfStep(hits, i, r);
      if r == hits[i].ref {
        WeighAppend(HitsOf(hits[..i], r), [hits[i]], OutsideChunk(g.chunk.chunk));
        WeighOne(hits[i], OutsideChunk(g.chunk.chunk));
      }
    }
  }

  predicate ByScore(a: VectorHit, b: VectorHit) {
    a.score >= b.score
  }

  ghost predicate SameChunks(a: map<NoteRef, Group>, b: map<NoteRef, Group>) {
    forall r :: (r in a <==> r in b) && (r in a ==> b[r].chunk == a[r].chunk)
  }

  method AggregateChunkHits(hits: seq<VectorHit>) returns (out: seq<VectorHit>)
    ensures IsAggregate(hits, out) && AllPublished(hits, out)
    ensures forall i :: 0 <= i < |out| ==> out[i].score <= 1.0
  {
    var byRef := GroupHits(hits);
    byRef := AddBonuses(hits, byRef);
    var list := Collect(hits, byRef);
    out := SortFunc(list, ByScore);
    SortedAggregate(hits, list, out);
    AggregatePublished(hits, out);
  }

  method GroupHits(hits: seq<VectorHit>) returns (byRef: map<NoteRef, Group>)
    ensures Grouped(hits, byRef)
    ensures forall r :: r in byRef ==> byRef[r].sum == 0.0
  {
    byRef := map[];
    for i := 0 to |hits|
      invariant Grouped(hits[..i], byRef)
      invariant forall r :: r in byRef ==> byRef[r].sum == 0.0
    {
      var h := hits[i];
      var g := Joined(byRef, h);
      GroupStep(hits, i, byRef, g);
      byRef := byRef[h.ref := g];
    }
    assert hits[..|hits|] == hits;
  }

  /** A group is opened by its first hit and re-headed by every strictly better one. */
  method Joined(byRef: map<NoteRef, Group>, h: VectorHit) returns (g: Group)
    requires forall r :: r in byRef ==> byRef[r].sum == 0.0
    ensures g.sum == 0.0
    ensures g.chunk == if h.ref !in byRef || h.score > byRef[h.ref].chunk.score then h else byRef[h.ref].chunk
  {
    g := if h.ref in byRef then byRef[h.ref] else Group(h, 0.0);
    if h.score > g.chunk.score { g := g.(chunk := h); }
  }

  /** Second pass: the maxima are known, so every other chunk can join its group's sum. */
  method AddBonuses(hits: seq<VectorHit>, groups: map<NoteRef, Group>) returns (byRef: map<NoteRef, Group>)
    requires Grouped(hits, groups) && forall r :: r in groups ==> groups[r].sum == 0.0
    ensures Grouped(hits, byRef) && Summed(hits, byRef)
  {
    byRef := groups;
    for i := 0 to |hits|
      invariant SameChunks(groups, byRef)
      invariant Summed(hits[..i], byRef)
    {
      var h := hits[i];
      assert h.ref in groups;
      var g := byRef[h.ref];
      if h.chunk != g.chunk.chunk && h.score >= BONUS_THRESHOLD { g := g.(sum := g.sum + h.score); }
      SumStep(hits, i, byRef, g);
      byRef := byRef[h.ref := g];
    }
    assert hits[..|hits|] == hits;
  }

  ghost predicate Entries(hits: seq<VectorHit>, list: seq<VectorHit>) {
    && (forall i :: 0 <= i < |list| ==> HitsOf(hits, list[i].ref) != [] && list[i] == DocHit(HitsOf(hits, list[i].ref)))
    && (forall i, j :: 0 <= i < j < |list| ==> list[i].ref != list[j].ref)
  }

  ghost predicate Listed(hits: seq<VectorHit>, list: seq<VectorHit>) {
    Entries(hits, list) && forall k :: 0 <= k < |hits| ==> HasRef(list, hits[k].ref)
  }

  lemma GroupEntry(hits: seq<VectorHit>, byRef: map<NoteRef, Group>, r: NoteRef)
    requires Grouped(hits, byRef) && Summed(hits, byRef) && r in byRef
    ensures HitsOf(hits, r) != [] && byRef[r].chunk.ref == r
    ensures byRef[r].chunk.(score := Capped(byRef[r].chunk.score, byRef[r].sum)) == DocHit(HitsOf(hits, r))
  {
    HitsOfRef(hits, r, byRef[r].chunk);
  }

  ghost predicate EntryOf(hits: seq<VectorHit>, r: NoteRef, e: VectorHit) {
    HitsOf(hits, r) != [] && e.ref == r && e == DocHit(HitsOf(hits, r))
  }

  lemma EntriesListed(hits: seq<VectorHit>, byRef: map<NoteRef, Group>, refs: seq<NoteRef>, list: seq<VectorHit>)
    requires Grouped(hits, byRef) && NoDuplicates(refs) && forall r :: r in refs <==> r in byRef
    requires |list| == |refs| && forall j :: 0 <= j < |refs| ==> EntryOf(hits, refs[j], list[j])
    ensures Listed(hits, list)
  {
    forall k | 0 <= k < |hits| ensures HasRef(list, hits[k].ref) {
      var j :| 0 <= j < |refs| && refs[j] == hits[k].ref;
      assert list[j].ref == hits[k].ref;
    }
  }

  /** The entries of all groups, in the order the map yields them. */
  method Collect(hits: seq<VectorHit>, byRef: map<NoteRef, Group>) returns (list: seq<VectorHit>)
    requires Grouped(hits, byRef) && Summed(hits, byRef)
    ensures Listed(hits, list)
  {
    list := [];
    var refs := Range(byRef.Keys);
    for i := 0 to |refs|
      invariant |list| == i && forall j :: 0 <= j < i ==> EntryOf(hits, refs[j], list[j])
    {
      var g := byRef[refs[i]];
      GroupEntry(hits, byRef, refs[i]);
      list := list + [g.chunk.(score := MinReal(g.chunk.score + BONUS_WEIGHT * g.sum, 1.0))];
    }
    EntriesListed(hits, byRef, refs, list);
  }

  lemma SortedAggregate(hits: seq<VectorHit>, list: seq<VectorHit>, out: seq<VectorHit>)
    requires Listed(hits, list) && multiset(out) == multiset(list) && SortedBy(ByScore, out)
    ensures IsAggregate(hits, out)
    ensures forall i :: 0 <= i < |out| ==> out[i].score <= 1.0
  {
    NoDuplicatesMultiset(list, out);
    forall i | 0 <= i < |out| ensures out[i] in list { assert out[i] in multiset(list); }
    forall k | 0 <= k < |hits| ensures HasRef(out, hits[k].ref) {
      var i :| 0 <= i < |list| && list[i].ref == hits[k].ref;
      assert list[i] in multiset(out);
    }
    forall i, j | 0 <= i < j < |out| ensures out[i].ref != out[j].ref && out[i].score >= out[j].score {
      assert ByScore(out[i], out[j]) && out[i] != out[j];
    }
  }
}
